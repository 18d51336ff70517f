/**
 What the M3U parser makes of any text at all, in terms of its lines and of the
 characters of a line: files of other programs hold comments, unknown tags, stray
 addresses and damaged lines, which the printer of this repository never writes.
 */
module M3uReading {
  import opened Basics
  import opened M3uText
  import opened M3uCodec
  import opened M3uRoundTrip
  import opened M3uFiles
  import N = NaturalOrder

  // ---------- Lines and spaces ----------

  /** `t` is `s` without the spaces at its two ends. */
  ghost predicate IsTrimOf(s: string, t: string) {
    && (t != "" ==> !IsSpace(t[0]) && !IsSpace(t[|t| - 1]))
    && exists a, b {:trigger a + t + b} :: s == a + t + b && forall c | c in a + b :: IsSpace(c)
  }

  lemma {:induction false} TrimLeftIs(s: string) returns (a: string)
    ensures s == a + TrimLeft(s) && (forall c | c in a :: IsSpace(c))
    ensures TrimLeft(s) != "" ==> !IsSpace(TrimLeft(s)[0])
  {
    a := "";
    if s != "" && IsSpace(s[0]) {
      var more := TrimLeftIs(s[1..]);
      a := [s[0]] + more;
    }
  }

  lemma {:induction false} TrimRightIs(s: string) returns (b: string)
    ensures s == TrimRight(s) + b && (forall c | c in b :: IsSpace(c))
    ensures TrimRight(s) != "" ==> !IsSpace(TrimRight(s)[|TrimRight(s)| - 1])
  {
    b := "";
    if s != "" && IsSpace(s[|s| - 1]) {
      var n := |s| - 1;
      var more := TrimRightIs(s[..n]);
      b := more + [s[n]];
      assert s == s[..n] + [s[n]] == TrimRight(s) + b;
    }
  }

  lemma TrimIs(s: string)
    ensures IsTrimOf(s, Trim(s))
  {
    var a := TrimLeftIs(s);
    var b := TrimRightIs(TrimLeft(s));
    var t := Trim(s);
    assert t != "" ==> t[0] == TrimLeft(s)[0];
    assert s == a + t + b;
  }

  /** The raw lines of a text: what stands between newlines, without an empty last piece. */
  ghost predicate AreRawLines(text: string, raw: seq<string>) {
    && (forall l | l in raw :: '\n' !in l)
    && (text == Joined(raw) || (raw != [] && raw[|raw| - 1] != "" && text + "\n" == Joined(raw)))
  }

  function Joined(raw: seq<string>): string {
    if raw == [] then "" else raw[0] + "\n" + Joined(raw[1..])
  }

  /** Each line is the raw line without a carriage return at its end. */
  ghost predicate AreUnreturned(lines: seq<string>, raw: seq<string>) {
    |lines| == |raw| && forall i | 0 <= i < |raw| ::
      lines[i] == if raw[i] != "" && raw[i][|raw[i]| - 1] == '\r' then raw[i][..|raw[i]| - 1] else raw[i]
  }

  lemma RawCons(line: string, text: string, raw: seq<string>)
    requires '\n' !in line && AreRawLines(text, raw)
    ensures AreRawLines(line + "\n" + text, [line] + raw)
  {
    assert ([line] + raw)[1..] == raw;
    assert line + "\n" + text + "\n" == line + "\n" + (text + "\n");
  }

  lemma LastRaw(text: string)
    requires text != "" && '\n' !in text
    ensures AreRawLines(text, [text]) && AreUnreturned([DropReturn(text)], [text])
  {
    assert [text][1..] == [] && text + "\n" + "" == text + "\n";
  }

  lemma UnreturnedCons(line: string, lines: seq<string>, raw: seq<string>)
    requires AreUnreturned(lines, raw)
    ensures AreUnreturned([DropReturn(line)] + lines, [line] + raw)
  {
  }

  lemma {:induction false} LinesAre(text: string) returns (raw: seq<string>)
    ensures AreRawLines(text, raw) && AreUnreturned(Lines(text), raw)
    decreases |text|
  {
    if text == "" {
      return [];
    }
    var i := IndexOf(text, '\n');
    IndexOfIsFirst(text, '\n');
    var line := text[..i];
    if i == |text| {
      raw := [text];
      LastRaw(text);
    } else {
      var rest := text[i + 1..];
      var more := LinesAre(rest);
      RawCons(line, rest, more);
      assert text == line + "\n" + rest;
      raw := [line] + more;
      UnreturnedCons(line, Lines(rest), more);
    }
  }

  // ---------- Kinds of line, once trimmed ----------

  predicate IsInfo(line: string) {
    "#EXTINF:" <= line
  }

  predicate IsAddress(line: string) {
    line != "" && line[0] != '#'
  }

  ghost predicate IsTag(line: string, key: string, value: string) {
    && line == "#" + key + ":" + value && ':' !in key
    && ("EXT-X-" <= key || key in {"EXTGRP", "EXTBYT", "EXTSIZE", "EXTBIN", "EXTVLCOPT"})
  }

  /** A blank line, a comment or a tag nobody asked for. */
  ghost predicate IsNoise(line: string) {
    !IsInfo(line) && !IsAddress(line) && forall key, value :: !IsTag(line, key, value)
  }

  lemma TagColon(line: string, key: string, value: string)
    requires line == "#" + key + ":" + value && ':' !in key
    ensures IndexOf(line, ':') == |key| + 1 && line[1..|key| + 1] == key && line[|key| + 2..] == value
  {
    assert line[..|key| + 1] == "#" + key;
    IndexOfFirst(line, ':', |key| + 1);
  }

  lemma {:induction false} PlainTagIs(line: string, i: nat)
    requires i <= |PLAIN_TAGS|
    ensures var r := PlainTag(line, i);
      r.Some? ==> r.value.0 in PLAIN_TAGS && line == "#" + r.value.0 + ":" + r.value.1
    ensures PlainTag(line, i).None? ==>
      forall k | i <= k < |PLAIN_TAGS| :: !("#" + PLAIN_TAGS[k] + ":" <= line)
    decreases |PLAIN_TAGS| - i
  {
    if i < |PLAIN_TAGS| {
      PlainTagIs(line, i + 1);
    }
  }

  lemma ExtXPrefix(line: string, key: string, value: string)
    requires line == "#" + key + ":" + value && ':' !in key
    ensures "EXT-X-" <= key ==> EXT_X <= line
    ensures EXT_X <= line ==> "EXT-X-" <= key
  {
    assert line[1..|key| + 1] == key;
    if EXT_X <= line {
      assert line[|key| + 1] == ':' && line[..7] == EXT_X;
      assert forall i | 0 <= i < 7 :: line[i] == line[..7][i] && line[..7][i] != ':';
      assert forall i | 0 <= i < 6 :: key[i] == line[i + 1] == "EXT-X-"[i];
    }
  }

  lemma PlainKeys(key: string)
    requires key in PLAIN_TAGS
    ensures ':' !in key && key in {"EXTGRP", "EXTBYT", "EXTSIZE", "EXTBIN", "EXTVLCOPT"}
  {
  }

  lemma TagIsRead(line: string, key: string, value: string)
    requires IsTag(line, key, value)
    ensures ParseTag(line) == Some((key, value))
  {
    if "EXT-X-" <= key {
      ExtXPrefix(line, key, value);
      TagColon(line, key, value);
    } else {
      TagReadBack(key, value);
    }
  }

  lemma ReadIsTag(line: string, key: string, value: string)
    requires ParseTag(line) == Some((key, value))
    ensures IsTag(line, key, value)
  {
    if EXT_X <= line && IndexOf(line, ':') < |line| {
      IndexOfIsFirst(line, ':');
      assert line == "#" + key + ":" + value;
      ExtXPrefix(line, key, value);
    } else {
      PlainTagIs(line, 0);
      PlainKeys(key);
    }
  }

  /** The tag of a line, if it has one. */
  lemma TagIs(line: string, key: string, value: string)
    ensures ParseTag(line) == Some((key, value)) <==> IsTag(line, key, value)
  {
    if IsTag(line, key, value) {
      TagIsRead(line, key, value);
    }
    if ParseTag(line) == Some((key, value)) {
      ReadIsTag(line, key, value);
    }
  }

  // ---------- One call of the decoder ----------

  // Below `lines` are trimmed, and `parse` reads an EXTINF line.

  /** The first `n` lines end no track and hold no damaged EXTINF line. */
  ghost predicate IsOpen(parse: string -> Option<Track>, lines: seq<string>, n: nat)
    requires n <= |lines|
  {
    && (forall i | 0 <= i < n && IsInfo(lines[i]) :: parse(lines[i]).Some?)
    && (forall i, j | 0 <= i < j < n && IsInfo(lines[i]) :: !IsAddress(lines[j]))
  }

  /** Line `i` is the last EXTINF line of the first `n`. */
  ghost predicate IsLastInfo(lines: seq<string>, n: nat, i: nat)
    requires n <= |lines|
  {
    i < n && IsInfo(lines[i]) && forall j | i < j < n :: !IsInfo(lines[j])
  }

  /** Line `j` is the last before `n` to give `key` a value, and the value is `value`. */
  ghost predicate Gives(lines: seq<string>, n: nat, j: nat, key: string, value: string)
    requires n <= |lines|
  {
    && j < n && IsTag(lines[j], key, value)
    && forall l, v | j < l < n :: !IsTag(lines[l], key, v)
  }

  ghost predicate IsGiven(lines: seq<string>, i: nat, n: nat, key: string, value: string)
    requires n <= |lines|
  {
    exists j | i < j :: Gives(lines, n, j, key, value)
  }

  /** `tags` are those of the lines behind `i` and before `n`, the last one for each key. */
  ghost predicate AreTags(lines: seq<string>, i: nat, n: nat, tags: map<string, string>)
    requires n <= |lines|
  {
    forall key, value {:trigger IsGiven(lines, i, n, key, value)} ::
      key in tags && tags[key] == value <==> IsGiven(lines, i, n, key, value)
  }

  /** The track begun on line `i`, with what the lines before `n` add to it. */
  ghost predicate IsBegun(parse: string -> Option<Track>, lines: seq<string>, i: nat, n: nat, t: Track)
    requires n <= |lines|
  {
    && IsLastInfo(lines, n, i) && AreTags(lines, i, n, t.tags)
    && parse(lines[i]) == Some(t.(tags := map[]))
  }

  /** The state of the loop after `n` lines. */
  ghost predicate IsState(parse: string -> Option<Track>, lines: seq<string>, n: nat, track: Option<Track>)
    requires n <= |lines|
  {
    && IsOpen(parse, lines, n)
    && match track
       case None => forall i | 0 <= i < n :: !IsInfo(lines[i])
       case Some(t) => exists i :: IsBegun(parse, lines, i, n, t)
  }

  /** The call takes `n` lines and returns `item`. */
  ghost predicate IsReading(parse: string -> Option<Track>, parseUrl: string -> Option<string>, lines: seq<string>,
                            item: Item, n: nat)
    requires n <= |lines|
  {
    if item.Eof? then n == |lines| && IsOpen(parse, lines, n)
    else n > 0 && EndsAt(parse, parseUrl, lines, item, n - 1)
  }

  /** Line `n` is the first that ends the call, with `item`. */
  ghost predicate EndsAt(parse: string -> Option<Track>, parseUrl: string -> Option<string>, lines: seq<string>,
                         item: Item, n: nat)
    requires n < |lines|
  {
    && IsOpen(parse, lines, n)
    && match item
       case BadExtInf => IsInfo(lines[n]) && parse(lines[n]).None?
       case BadUrl =>
         && IsAddress(lines[n]) && (exists i :: IsLastInfo(lines, n, i))
         && parseUrl(lines[n]).None?
       case Got(t) =>
         && IsAddress(lines[n]) && t.uri.Some? && parseUrl(lines[n]) == t.uri
         && exists i, begun :: IsBegun(parse, lines, i, n, begun) && t == begun.(uri := t.uri)
       case _ => false
  }

  lemma InfoIsNoTag(line: string, key: string, value: string)
    requires IsInfo(line)
    ensures !IsTag(line, key, value)
  {
    if IsTag(line, key, value) {
      assert line[4] == 'I' && line[4] == key[3];
      if !("EXT-X-" <= key) {
        PlainLetters(key);
      }
      assert false;
    }
  }

  lemma LineKinds(line: string)
    ensures "#" <= line <==> line != "" && line[0] == '#'
    ensures IsInfo(line) ==> !IsAddress(line) && "#EXT" <= line && forall key, value :: !IsTag(line, key, value)
    ensures forall key, value | IsTag(line, key, value) :: !IsAddress(line) && "#EXT" <= line && IsWhitelisted(line)
    ensures IsWhitelisted(line) ==> !IsAddress(line)
  {
    assert "#EXT" <= EXTINF;
    forall key, value | IsTag(line, key, value) ensures "#EXT" <= line && IsWhitelisted(line) {
      TagIs(line, key, value);
      if !("EXT-X-" <= key) {
        PlainLetters(key);
      }
      assert key[..3] == "EXT" && line[..4] == "#EXT";
    }
    if IsInfo(line) {
      forall key, value ensures !IsTag(line, key, value) {
        InfoIsNoTag(line, key, value);
      }
    }
  }

  lemma OpenNext(parse: string -> Option<Track>, lines: seq<string>, n: nat)
    requires n < |lines| && IsOpen(parse, lines, n)
    requires IsInfo(lines[n]) ==> parse(lines[n]).Some?
    requires IsAddress(lines[n]) ==> forall i | 0 <= i < n :: !IsInfo(lines[i])
    ensures IsOpen(parse, lines, n + 1)
  {
  }

  lemma InfoBegins(parse: string -> Option<Track>, lines: seq<string>, n: nat, t: Track)
    requires n < |lines| && IsInfo(lines[n]) && parse(lines[n]) == Some(t) && t.tags == map[]
    ensures IsBegun(parse, lines, n, n + 1, t)
  {
  }

  lemma GivenByLast(lines: seq<string>, i: nat, n: nat, key: string, value: string, v: string)
    requires i < n < |lines| && IsTag(lines[n], key, value)
    ensures IsGiven(lines, i, n + 1, key, v) <==> v == value
  {
    TagIs(lines[n], key, value);
    TagIs(lines[n], key, v);
    if v == value {
      assert Gives(lines, n + 1, n, key, v);
    }
  }

  lemma GivenBefore(lines: seq<string>, i: nat, n: nat, key: string, value: string)
    requires n < |lines| && forall v :: !IsTag(lines[n], key, v)
    ensures IsGiven(lines, i, n, key, value) <==> IsGiven(lines, i, n + 1, key, value)
  {
    if IsGiven(lines, i, n, key, value) {
      var j :| i < j && Gives(lines, n, j, key, value);
      assert Gives(lines, n + 1, j, key, value);
    }
    if IsGiven(lines, i, n + 1, key, value) {
      var j :| i < j && Gives(lines, n + 1, j, key, value);
      assert Gives(lines, n, j, key, value);
    }
  }

  lemma OneTag(line: string, key: string, value: string, k: string, v: string)
    requires IsTag(line, key, value) && IsTag(line, k, v)
    ensures k == key && v == value
  {
    TagIs(line, key, value);
    TagIs(line, k, v);
  }

  lemma TagAdds(lines: seq<string>, i: nat, n: nat, tags: map<string, string>, key: string, value: string)
    requires i < n < |lines| && AreTags(lines, i, n, tags) && IsTag(lines[n], key, value)
    ensures AreTags(lines, i, n + 1, tags[key := value])
  {
    var more := tags[key := value];
    forall k, v {:trigger IsGiven(lines, i, n + 1, k, v)}
      ensures k in more && more[k] == v <==> IsGiven(lines, i, n + 1, k, v)
    {
      if k == key {
        GivenByLast(lines, i, n, key, value, v);
      } else {
        forall w ensures !IsTag(lines[n], k, w) {
          if IsTag(lines[n], k, w) {
            OneTag(lines[n], key, value, k, w);
          }
        }
        GivenBefore(lines, i, n, k, v);
      }
    }
  }

  lemma OtherKeeps(lines: seq<string>, i: nat, n: nat, tags: map<string, string>)
    requires n < |lines| && AreTags(lines, i, n, tags)
    requires forall key, value :: !IsTag(lines[n], key, value)
    ensures AreTags(lines, i, n + 1, tags)
  {
    forall k, v {:trigger IsGiven(lines, i, n + 1, k, v)}
      ensures k in tags && tags[k] == v <==> IsGiven(lines, i, n + 1, k, v)
    {
      GivenBefore(lines, i, n, k, v);
    }
  }

  // ---------- The loop, line by line ----------

  lemma StateAfterInfo(parse: string -> Option<Track>, lines: seq<string>, n: nat, track: Option<Track>)
    requires n < |lines| && IsState(parse, lines, n, track) && IsInfo(lines[n])
    requires parse(lines[n]).Some? && parse(lines[n]).value.tags == map[]
    ensures IsState(parse, lines, n + 1, parse(lines[n]))
  {
    LineKinds(lines[n]);
    OpenNext(parse, lines, n);
    InfoBegins(parse, lines, n, parse(lines[n]).value);
  }

  lemma StateAfterTag(parse: string -> Option<Track>, lines: seq<string>, n: nat, t: Track, key: string, value: string)
    requires n < |lines| && IsState(parse, lines, n, Some(t)) && IsTag(lines[n], key, value)
    ensures IsState(parse, lines, n + 1, Some(t.(tags := t.tags[key := value])))
  {
    LineKinds(lines[n]);
    OpenNext(parse, lines, n);
    var i :| IsBegun(parse, lines, i, n, t);
    TagAdds(lines, i, n, t.tags, key, value);
    assert IsBegun(parse, lines, i, n + 1, t.(tags := t.tags[key := value]));
  }

  lemma StateAfterNoise(parse: string -> Option<Track>, lines: seq<string>, n: nat, t: Track)
    requires n < |lines| && IsState(parse, lines, n, Some(t)) && IsNoise(lines[n])
    ensures IsState(parse, lines, n + 1, Some(t))
  {
    OpenNext(parse, lines, n);
    var i :| IsBegun(parse, lines, i, n, t);
    OtherKeeps(lines, i, n, t.tags);
    assert IsBegun(parse, lines, i, n + 1, t);
  }

  lemma StateBefore(parse: string -> Option<Track>, lines: seq<string>, n: nat)
    requires n < |lines| && IsState(parse, lines, n, None) && !IsInfo(lines[n])
    ensures IsState(parse, lines, n + 1, None)
  {
    OpenNext(parse, lines, n);
  }

  function Trimmed(lines: seq<string>): (r: seq<string>)
    ensures |r| == |lines| && forall i | 0 <= i < |r| :: r[i] == Trim(lines[i])
  {
    seq(|lines|, i requires 0 <= i < |lines| => Trim(lines[i]))
  }

  /** What one line does, for each kind of line. */
  lemma InfoStep(parseUrl: string -> Option<string>, lines: seq<string>, track: Option<Track>)
    requires lines != [] && IsInfo(Trim(lines[0]))
    ensures NextTrack(parseUrl, lines, track)
         == match ParseExtInf(Trim(lines[0]))
            case None => (BadExtInf, lines[1..])
            case Some(t) => NextTrack(parseUrl, lines[1..], Some(t))
  {
    LineKinds(Trim(lines[0]));
  }

  lemma AddressStep(parseUrl: string -> Option<string>, lines: seq<string>, track: Option<Track>)
    requires lines != [] && IsAddress(Trim(lines[0]))
    ensures NextTrack(parseUrl, lines, track)
         == if track.None? then NextTrack(parseUrl, lines[1..], None)
            else match parseUrl(Trim(lines[0]))
                 case None => (BadUrl, lines[1..])
                 case Some(u) => (Got(track.value.(uri := Some(u))), lines[1..])
  {
    LineKinds(Trim(lines[0]));
  }

  lemma TagLineStep(parseUrl: string -> Option<string>, lines: seq<string>, track: Option<Track>,
                    key: string, value: string)
    requires lines != [] && IsTag(Trim(lines[0]), key, value)
    ensures NextTrack(parseUrl, lines, track)
         == NextTrack(parseUrl, lines[1..],
                      if track.None? then None else Some(track.value.(tags := track.value.tags[key := value])))
  {
    LineKinds(Trim(lines[0]));
    TagIs(Trim(lines[0]), key, value);
    if IsInfo(Trim(lines[0])) {
      InfoIsNoTag(Trim(lines[0]), key, value);
    }
  }

  lemma NoiseStep(parseUrl: string -> Option<string>, lines: seq<string>, track: Option<Track>)
    requires lines != [] && IsNoise(Trim(lines[0]))
    ensures NextTrack(parseUrl, lines, track) == NextTrack(parseUrl, lines[1..], track)
  {
    var line := Trim(lines[0]);
    LineKinds(line);
    match ParseTag(line)
    case None =>
    case Some(kv) => TagIs(line, kv.0, kv.1);
  }

  /** What a call does with the lines left and the track begun so far. */
  type Caller = (seq<string>, Option<Track>) -> (Item, seq<string>)

  function CallOf(parseUrl: string -> Option<string>): Caller {
    (lines: seq<string>, track: Option<Track>) => NextTrack(parseUrl, lines, track)
  }

  /** Line `n` ends the call, or the call goes on behind it with `next`. */
  ghost predicate GoesOn(call: Caller, parse: string -> Option<Track>, parseUrl: string -> Option<string>,
                         lines: seq<string>, n: nat, track: Option<Track>, next: Option<Option<Track>>)
    requires n < |lines|
  {
    match next
    case None =>
      var (item, rest) := call(lines[n..], track);
      !item.Eof? && EndsAt(parse, parseUrl, Trimmed(lines), item, n) && rest == lines[n + 1..]
    case Some(t) =>
      IsState(parse, Trimmed(lines), n + 1, t) && call(lines[n..], track) == call(lines[n + 1..], t)
  }

  lemma AfterInfo(parseUrl: string -> Option<string>, lines: seq<string>, n: nat, track: Option<Track>)
    returns (next: Option<Option<Track>>)
    requires n < |lines| && IsState(ParseExtInf, Trimmed(lines), n, track) && IsInfo(Trim(lines[n]))
    ensures GoesOn(CallOf(parseUrl), ParseExtInf, parseUrl, lines, n, track, next)
  {
    assert lines[n..][1..] == lines[n + 1..];
    InfoStep(parseUrl, lines[n..], track);
    var t := ParseExtInf(Trim(lines[n]));
    if t.None? {
      return None;
    }
    StateAfterInfo(ParseExtInf, Trimmed(lines), n, track);
    next := Some(t);
  }

  lemma AfterAddress(parseUrl: string -> Option<string>, lines: seq<string>, n: nat, track: Option<Track>)
    returns (next: Option<Option<Track>>)
    requires n < |lines| && IsState(ParseExtInf, Trimmed(lines), n, track) && IsAddress(Trim(lines[n]))
    ensures GoesOn(CallOf(parseUrl), ParseExtInf, parseUrl, lines, n, track, next)
  {
    assert lines[n..][1..] == lines[n + 1..];
    AddressStep(parseUrl, lines[n..], track);
    if track.Some? {
      var i :| IsBegun(ParseExtInf, Trimmed(lines), i, n, track.value);
      return None;
    }
    LineKinds(Trim(lines[n]));
    StateBefore(ParseExtInf, Trimmed(lines), n);
    next := Some(None);
  }

  lemma AfterTag(parseUrl: string -> Option<string>, lines: seq<string>, n: nat, track: Option<Track>,
                 key: string, value: string)
    returns (next: Option<Option<Track>>)
    requires n < |lines| && IsState(ParseExtInf, Trimmed(lines), n, track) && IsTag(Trim(lines[n]), key, value)
    ensures GoesOn(CallOf(parseUrl), ParseExtInf, parseUrl, lines, n, track, next)
  {
    assert lines[n..][1..] == lines[n + 1..];
    TagLineStep(parseUrl, lines[n..], track, key, value);
    LineKinds(Trim(lines[n]));
    if track.None? {
      StateBefore(ParseExtInf, Trimmed(lines), n);
      return Some(None);
    }
    StateAfterTag(ParseExtInf, Trimmed(lines), n, track.value, key, value);
    next := Some(Some(track.value.(tags := track.value.tags[key := value])));
  }

  lemma AfterNoise(parseUrl: string -> Option<string>, lines: seq<string>, n: nat, track: Option<Track>)
    returns (next: Option<Option<Track>>)
    requires n < |lines| && IsState(ParseExtInf, Trimmed(lines), n, track) && IsNoise(Trim(lines[n]))
    ensures GoesOn(CallOf(parseUrl), ParseExtInf, parseUrl, lines, n, track, next)
  {
    assert lines[n..][1..] == lines[n + 1..];
    NoiseStep(parseUrl, lines[n..], track);
    if track.None? {
      StateBefore(ParseExtInf, Trimmed(lines), n);
    } else {
      StateAfterNoise(ParseExtInf, Trimmed(lines), n, track.value);
    }
    next := Some(track);
  }

  lemma AfterLine(parseUrl: string -> Option<string>, lines: seq<string>, n: nat, track: Option<Track>)
    returns (next: Option<Option<Track>>)
    requires n < |lines| && IsState(ParseExtInf, Trimmed(lines), n, track)
    ensures GoesOn(CallOf(parseUrl), ParseExtInf, parseUrl, lines, n, track, next)
  {
    var line := Trim(lines[n]);
    if IsInfo(line) {
      next := AfterInfo(parseUrl, lines, n, track);
    } else if IsAddress(line) {
      next := AfterAddress(parseUrl, lines, n, track);
    } else if key, value :| IsTag(line, key, value) {
      next := AfterTag(parseUrl, lines, n, track, key, value);
    } else {
      next := AfterNoise(parseUrl, lines, n, track);
    }
  }

  /** Going on from `track` behind `n` lines, the call takes the lines up to `m`. */
  ghost predicate ReadsTo(call: Caller, parse: string -> Option<Track>, parseUrl: string -> Option<string>,
                          lines: seq<string>, n: nat, track: Option<Track>, m: nat)
    requires n <= |lines|
  {
    var (item, rest) := call(lines[n..], track);
    n <= m <= |lines| && IsReading(parse, parseUrl, Trimmed(lines), item, m) && rest == lines[m..]
  }

  /** From a state after `n` lines the rest is read as the whole is. */
  lemma {:induction false} ReadFrom(call: Caller, parse: string -> Option<Track>, parseUrl: string -> Option<string>,
                                    lines: seq<string>, n: nat, track: Option<Track>)
    returns (m: nat)
    requires forall k, t | 0 <= k < |lines| && IsState(parse, Trimmed(lines), k, t) ::
      exists next :: GoesOn(call, parse, parseUrl, lines, k, t, next)
    requires forall t :: call([], t) == (Eof, [])
    requires n <= |lines| && IsState(parse, Trimmed(lines), n, track)
    ensures ReadsTo(call, parse, parseUrl, lines, n, track, m)
    decreases |lines| - n
  {
    if n == |lines| {
      m := n;
    } else {
      var next :| GoesOn(call, parse, parseUrl, lines, n, track, next);
      if next.None? {
        m := n + 1;
      } else {
        m := ReadFrom(call, parse, parseUrl, lines, n + 1, next.value);
      }
    }
  }

  lemma ReadAll(parseUrl: string -> Option<string>, lines: seq<string>) returns (m: nat)
    ensures m <= |lines|
    ensures var (item, rest) := NextTrack(parseUrl, lines, None);
      IsReading(ParseExtInf, parseUrl, Trimmed(lines), item, m) && rest == lines[m..]
  {
    forall k, t | 0 <= k < |lines| && IsState(ParseExtInf, Trimmed(lines), k, t)
      ensures exists next :: GoesOn(CallOf(parseUrl), ParseExtInf, parseUrl, lines, k, t, next)
    {
      var next := AfterLine(parseUrl, lines, k, t);
    }
    m := ReadFrom(CallOf(parseUrl), ParseExtInf, parseUrl, lines, 0, None);
    assert lines[0..] == lines;
  }

  lemma EndsOnce(parse: string -> Option<Track>, parseUrl: string -> Option<string>, lines: seq<string>,
                 item: Item, n: nat, k: nat)
    requires n < |lines| && EndsAt(parse, parseUrl, lines, item, n) && k <= |lines| && IsOpen(parse, lines, k)
    ensures k <= n
  {
    if item.Got? {
      var i, begun :| IsBegun(parse, lines, i, n, begun) && item.track == begun.(uri := item.track.uri);
      assert IsLastInfo(lines, n, i);
    }
  }

  lemma SameTrack(parse: string -> Option<Track>, lines: seq<string>, n: nat, i: nat, t: Track, i': nat, t': Track)
    requires n <= |lines| && IsBegun(parse, lines, i, n, t) && IsBegun(parse, lines, i', n, t')
    ensures t == t'
  {
    assert i == i';
    forall k | k in t.tags ensures k in t'.tags && t'.tags[k] == t.tags[k] {
      assert IsGiven(lines, i, n, k, t.tags[k]);
    }
    forall k | k in t'.tags ensures k in t.tags {
      assert IsGiven(lines, i, n, k, t'.tags[k]);
    }
    assert t.tags == t'.tags;
  }

  lemma EndsWithOne(parse: string -> Option<Track>, parseUrl: string -> Option<string>, lines: seq<string>,
                    item: Item, item': Item, n: nat)
    requires n < |lines|
    requires EndsAt(parse, parseUrl, lines, item, n) && EndsAt(parse, parseUrl, lines, item', n)
    ensures item == item'
  {
    LineKinds(lines[n]);
    if item.Got? && item'.Got? {
      var i, t :| IsBegun(parse, lines, i, n, t) && item.track == t.(uri := item.track.uri);
      var i', t' :| IsBegun(parse, lines, i', n, t') && item'.track == t'.(uri := item'.track.uri);
      SameTrack(parse, lines, n, i, t, i', t');
    }
  }

  /** At most one reading fits. */
  lemma ReadingIsUnique(parse: string -> Option<Track>, parseUrl: string -> Option<string>, lines: seq<string>,
                        item: Item, n: nat, item': Item, n': nat)
    requires n <= |lines| && IsReading(parse, parseUrl, lines, item, n)
    requires n' <= |lines| && IsReading(parse, parseUrl, lines, item', n')
    ensures item == item' && n == n'
  {
    if !item.Eof? {
      EndsOnce(parse, parseUrl, lines, item, n - 1, if item'.Eof? then n' else n' - 1);
    }
    if !item'.Eof? {
      EndsOnce(parse, parseUrl, lines, item', n' - 1, if item.Eof? then n else n - 1);
    }
    if !item.Eof? && !item'.Eof? {
      EndsWithOne(parse, parseUrl, lines, item, item', n - 1);
    }
  }

  /**
   What a call returns and how many lines it takes: the track of the last EXTINF line before the first address
   behind an EXTINF line, with the tags in between, unless a damaged EXTINF line comes before.
   */
  lemma ReadingIs(parseUrl: string -> Option<string>, lines: seq<string>, item: Item, n: nat)
    requires n <= |lines|
    ensures NextTrack(parseUrl, lines, None) == (item, lines[n..])
       <==> IsReading(ParseExtInf, parseUrl, Trimmed(lines), item, n)
  {
    var m := ReadAll(parseUrl, lines);
    var first := NextTrack(parseUrl, lines, None).0;
    if IsReading(ParseExtInf, parseUrl, Trimmed(lines), item, n) {
      ReadingIsUnique(ParseExtInf, parseUrl, Trimmed(lines), item, n, first, m);
    }
    if NextTrack(parseUrl, lines, None) == (item, lines[n..]) {
      assert |lines[n..]| == |lines[m..]|;
    }
  }

  /** Only the first line can be refused as a header, and only a file without tracks left is done. */
  lemma CallIs(parseUrl: string -> Option<string>, c: Cursor, item: Item, next: Cursor)
    requires DecodeNext(parseUrl, c) == (item, next)
    ensures item == BadHeader <==> !c.done && !c.header && c.lines != [] && !("#EXTM3U" <= Trim(c.lines[0]))
    ensures item == BadHeader ==> next == Cursor(c.lines[1..], false, false)
    ensures c.done || (!c.header && c.lines == []) ==> item == Eof && next == c
    ensures item != BadHeader && !c.done && (c.header || c.lines != []) ==>
      var lines := if c.header then c.lines else c.lines[1..];
      exists n: nat | n <= |lines| ::
        IsReading(ParseExtInf, parseUrl, Trimmed(lines), item, n) && next == Cursor(lines[n..], true, item == Eof)
  {
    if !c.done && (c.header || (c.lines != [] && HEADER <= Trim(c.lines[0]))) {
      var m := ReadAll(parseUrl, if c.header then c.lines else c.lines[1..]);
    }
  }

  // ---------- What is skipped ----------

  ghost function WithoutNoise(lines: seq<string>): seq<string> {
    if lines == [] then []
    else if IsNoise(Trim(lines[0])) then WithoutNoise(lines[1..])
    else [lines[0]] + WithoutNoise(lines[1..])
  }

  /** What a line does with the track begun so far: it ends the call or the call goes on. */
  datatype Effect = Ends(item: Item) | Continues(track: Option<Track>)

  ghost predicate Has(call: Caller, line: string, track: Option<Track>, effect: Effect) {
    forall rest :: call([line] + rest, track) == Outcome(call, effect, rest)
  }

  function Outcome(call: Caller, effect: Effect, rest: seq<string>): (Item, seq<string>) {
    match effect
    case Ends(item) => (item, rest)
    case Continues(t) => call(rest, t)
  }

  /** Every line has an effect, and noise has none. */
  ghost predicate HasEffect(call: Caller, line: string, track: Option<Track>) {
    exists effect :: Has(call, line, track, effect) && (IsNoise(Trim(line)) ==> effect == Continues(track))
  }

  lemma EffectOf(parseUrl: string -> Option<string>, line: string, track: Option<Track>) returns (effect: Effect)
    ensures Has(CallOf(parseUrl), line, track, effect)
    ensures IsNoise(Trim(line)) ==> effect == Continues(track)
  {
    if IsInfo(Trim(line)) {
      effect := InfoEffect(parseUrl, line, track);
    } else if IsAddress(Trim(line)) {
      effect := AddressEffect(parseUrl, line, track);
    } else if key, value :| IsTag(Trim(line), key, value) {
      effect := TagEffect(parseUrl, line, track, key, value);
    } else {
      effect := NoiseEffect(parseUrl, line, track);
    }
  }

  lemma InfoEffect(parseUrl: string -> Option<string>, line: string, track: Option<Track>) returns (effect: Effect)
    requires IsInfo(Trim(line))
    ensures Has(CallOf(parseUrl), line, track, effect)
  {
    var t := ParseExtInf(Trim(line));
    effect := if t.None? then Ends(BadExtInf) else Continues(t);
    forall rest ensures CallOf(parseUrl)([line] + rest, track) == Outcome(CallOf(parseUrl), effect, rest) {
      InfoStep(parseUrl, [line] + rest, track);
      assert ([line] + rest)[1..] == rest;
    }
  }

  lemma AddressEffect(parseUrl: string -> Option<string>, line: string, track: Option<Track>) returns (effect: Effect)
    requires IsAddress(Trim(line))
    ensures Has(CallOf(parseUrl), line, track, effect)
  {
    var u := parseUrl(Trim(line));
    effect := if track.None? then Continues(None)
              else if u.None? then Ends(BadUrl) else Ends(Got(track.value.(uri := u)));
    forall rest ensures CallOf(parseUrl)([line] + rest, track) == Outcome(CallOf(parseUrl), effect, rest) {
      AddressStep(parseUrl, [line] + rest, track);
      assert ([line] + rest)[1..] == rest;
    }
  }

  lemma TagEffect(parseUrl: string -> Option<string>, line: string, track: Option<Track>, key: string, value: string)
    returns (effect: Effect)
    requires IsTag(Trim(line), key, value)
    ensures Has(CallOf(parseUrl), line, track, effect)
  {
    effect := Continues(
      if track.None? then None else Some(track.value.(tags := track.value.tags[key := value])));
    forall rest ensures CallOf(parseUrl)([line] + rest, track) == Outcome(CallOf(parseUrl), effect, rest) {
      TagLineStep(parseUrl, [line] + rest, track, key, value);
      assert ([line] + rest)[1..] == rest;
    }
  }

  lemma NoiseEffect(parseUrl: string -> Option<string>, line: string, track: Option<Track>) returns (effect: Effect)
    requires IsNoise(Trim(line))
    ensures Has(CallOf(parseUrl), line, track, effect) && effect == Continues(track)
  {
    effect := Continues(track);
    forall rest ensures CallOf(parseUrl)([line] + rest, track) == Outcome(CallOf(parseUrl), effect, rest) {
      NoiseStep(parseUrl, [line] + rest, track);
      assert ([line] + rest)[1..] == rest;
    }
  }

  /** A call returns the same whether the noise is there or not, and leaves the same lines of interest. */
  ghost predicate SameWithout(call: Caller, lines: seq<string>, track: Option<Track>) {
    var (item, rest) := call(lines, track);
    call(WithoutNoise(lines), track) == (item, WithoutNoise(rest))
  }

  lemma {:induction false} SkipsNoise(call: Caller, lines: seq<string>, track: Option<Track>)
    requires forall t :: call([], t) == (Eof, [])
    requires forall line, t :: HasEffect(call, line, t)
    ensures SameWithout(call, lines, track)
    decreases |lines|
  {
    if lines != [] {
      var line, rest := lines[0], lines[1..];
      assert lines == [line] + rest;
      assert HasEffect(call, line, track);
      var effect :| Has(call, line, track, effect) && (IsNoise(Trim(line)) ==> effect == Continues(track));
      assert call([line] + rest, track) == Outcome(call, effect, rest);
      if effect.Continues? {
        SkipsNoise(call, rest, effect.track);
      }
    }
  }

  /** The call of the decoder skips the noise. */
  lemma NoiseIgnored(parseUrl: string -> Option<string>, lines: seq<string>, track: Option<Track>)
    ensures var (item, rest) := NextTrack(parseUrl, lines, track);
      NextTrack(parseUrl, WithoutNoise(lines), track) == (item, WithoutNoise(rest))
  {
    forall line, t ensures HasEffect(CallOf(parseUrl), line, t) {
      var effect := EffectOf(parseUrl, line, t);
    }
    SkipsNoise(CallOf(parseUrl), lines, track);
  }

  /** The results of `n` calls of any decoder. */
  function Results(next: Cursor -> (Item, Cursor), c: Cursor, n: nat): seq<Item>
    decreases n
  {
    if n == 0 then [] else [next(c).0] + Results(next, next(c).1, n - 1)
  }

  function DecoderOf(parseUrl: string -> Option<string>): Cursor -> (Item, Cursor) {
    (c: Cursor) => DecodeNext(parseUrl, c)
  }

  lemma {:induction false} ResultsOfDecoder(parseUrl: string -> Option<string>, c: Cursor, n: nat)
    ensures DecodeMany(parseUrl, c, n) == Results(DecoderOf(parseUrl), c, n)
    decreases n
  {
    if n > 0 {
      ResultsOfDecoder(parseUrl, DecodeNext(parseUrl, c).1, n - 1);
    }
  }

  ghost predicate CallSkipsNoise(next: Cursor -> (Item, Cursor), lines: seq<string>, done: bool) {
    var (item, c) := next(Cursor(lines, true, done));
    c.header && next(Cursor(WithoutNoise(lines), true, done)) == (item, c.(lines := WithoutNoise(c.lines)))
  }

  lemma {:induction false} ResultsWithoutNoise(next: Cursor -> (Item, Cursor), lines: seq<string>, done: bool, n: nat)
    requires forall l, d :: CallSkipsNoise(next, l, d)
    ensures Results(next, Cursor(WithoutNoise(lines), true, done), n) == Results(next, Cursor(lines, true, done), n)
    decreases n
  {
    if n > 0 {
      assert CallSkipsNoise(next, lines, done);
      var c := next(Cursor(lines, true, done)).1;
      ResultsWithoutNoise(next, c.lines, c.done, n - 1);
    }
  }

  /** Blank lines, comments and unknown tags change no result of the decoder. */
  lemma NoiseChangesNothing(parseUrl: string -> Option<string>, lines: seq<string>, done: bool, n: nat)
    ensures DecodeMany(parseUrl, Cursor(WithoutNoise(lines), true, done), n)
         == DecodeMany(parseUrl, Cursor(lines, true, done), n)
  {
    forall l, d ensures CallSkipsNoise(DecoderOf(parseUrl), l, d) {
      NoiseIgnored(parseUrl, l, None);
    }
    ResultsWithoutNoise(DecoderOf(parseUrl), lines, done, n);
    ResultsOfDecoder(parseUrl, Cursor(WithoutNoise(lines), true, done), n);
    ResultsOfDecoder(parseUrl, Cursor(lines, true, done), n);
  }

  /** A written file is read back however much noise stands between its lines. */
  lemma NoisyRoundTrip(header: map<string, string>, tracks: seq<Track>, text: string, noisy: string,
                       parseUrl: string -> Option<string>, other: Decimal -> string, n: nat)
    requires PrintableHeader(header) && (forall t <- tracks :: Printable(t, parseUrl))
        && IsFile(header, tracks, text, other)
    requires Lines(text) != [] && Lines(noisy) != [] && Lines(noisy)[0] == Lines(text)[0]
    requires WithoutNoise(Lines(noisy)[1..]) == WithoutNoise(Lines(text)[1..])
    ensures DecodeMany(parseUrl, Cursor(Lines(noisy), false, false), n) == Delivered(tracks, n)
  {
    RoundTrip(header, tracks, text, parseUrl, other, n);
    WrittenHeader(header, tracks, text, other);
    SameBehindHeader(parseUrl, Lines(noisy), Lines(text), n);
  }

  /** A file that is not empty starts with its header line. */
  lemma WrittenHeader(header: map<string, string>, tracks: seq<Track>, text: string, other: Decimal -> string)
    requires PrintableHeader(header) && IsFile(header, tracks, text, other) && Lines(text) != []
    ensures HEADER <= Trim(Lines(text)[0])
  {
    var head, body :| HeaderTexts(header)(head) && IsBody(TrackTexts(other), tracks, body) && text == head + body;
    var keys :| IsListing(keys, header, PairLess(header)) && head == HeaderLine(header, keys) + "\n";
    HeaderIsSharp(header, keys);
    SharpLine(HeaderLine(header, keys));
    LinesCons(HeaderLine(header, keys), body);
  }

  lemma SameBehindHeader(parseUrl: string -> Option<string>, a: seq<string>, b: seq<string>, n: nat)
    requires a != [] && b != [] && a[0] == b[0]
    requires WithoutNoise(a[1..]) == WithoutNoise(b[1..])
    requires HEADER <= Trim(b[0])
    ensures DecodeMany(parseUrl, Cursor(a, false, false), n) == DecodeMany(parseUrl, Cursor(b, false, false), n)
  {
    NoiseChangesNothing(parseUrl, a[1..], false, n);
    NoiseChangesNothing(parseUrl, b[1..], false, n);
    HeaderPassed(parseUrl, a, n);
    HeaderPassed(parseUrl, b, n);
  }

  lemma HeaderPassed(parseUrl: string -> Option<string>, lines: seq<string>, n: nat)
    requires lines != [] && HEADER <= Trim(lines[0])
    ensures DecodeMany(parseUrl, Cursor(lines, false, false), n)
         == DecodeMany(parseUrl, Cursor(lines[1..], true, false), n)
  {
  }
}

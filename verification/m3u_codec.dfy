/**
 The M3U parser and printer (internal/parser/m3u8): the IPTV form of the EXTM3U and
 EXTINF tags of sections 4.3.1.1 and 4.3.2.1 of RFC 8216. The two regular expressions
 are explicit scanners. URLs are kept as their text.
 */
module M3uCodec {
  import opened Basics
  import opened Buckets
  import opened M3uText
  import opened Sorting
  import N = NaturalOrder

  /** A length as an exact decimal number; `fraction` has no trailing zero. */
  datatype Decimal = Decimal(negative: bool, whole: nat, fraction: string)

  datatype Track = Track(
    name: string,
    length: Decimal,
    uri: Option<string>,
    attrs: map<string, string>,
    tags: map<string, string>)

  const HEADER := "#EXTM3U"
  const EXTINF := "#EXTINF:"
  const EXT_X := "#EXT-X-"

  /** The other whitelisted tags, in the order they are tried. */
  const PLAIN_TAGS := ["EXTGRP", "EXTBYT", "EXTSIZE", "EXTBIN", "EXTVLCOPT"]

  // ---------- extinfRegex: #EXTINF:(-?\d+(\.\d+)?)\s*(.*)$ ----------

  /** What the groups of a match capture. */
  datatype ExtInf = ExtInf(negative: bool, whole: string, fraction: string, rest: string)

  /** `\s` of a regular expression, which has fewer characters than `unicode.IsSpace`. */
  predicate IsRegexSpace(c: char) {
    c in {'\t', '\n', '\U{000C}', '\r', ' '}
  }

  function SkipSpaces(s: string): string {
    if s != "" && IsRegexSpace(s[0]) then SkipSpaces(s[1..]) else s
  }

  /** `(\.\d+)?`: the digits, and what follows. */
  function MatchFraction(s: string): (string, string) {
    var f := if s != "" && s[0] == '.' then N.DigitRun(s[1..]) else 0;
    if f > 0 then (s[1..][..f], s[1..][f..]) else ("", s)
  }

  /** What follows the sign, if there is one. */
  function DropSign(s: string): string {
    if s != "" && s[0] == '-' then s[1..] else s
  }

  /** A match that starts at the first character. */
  function MatchExtInf(s: string): Option<ExtInf> {
    if EXTINF <= s then MatchNumber(s[|EXTINF|..]) else None
  }

  function MatchNumber(s: string): Option<ExtInf> {
    var u := DropSign(s);
    var n := N.DigitRun(u);
    if n == 0 then None
    else
      var (fraction, after) := MatchFraction(u[n..]);
      var rest := SkipSpaces(after);
      if '\n' in rest then None else Some(ExtInf(s[0] == '-', u[..n], fraction, rest))
  }

  /** The leftmost match. */
  function FindExtInf(s: string): Option<ExtInf> {
    if MatchExtInf(s).Some? then MatchExtInf(s)
    else if s == "" then None
    else FindExtInf(s[1..])
  }

  function StripZeros(s: string): string {
    if s != "" && s[|s| - 1] == '0' then StripZeros(s[..|s| - 1]) else s
  }

  /** `strconv.ParseFloat` of the captured number, exactly. */
  function ParseLength(m: ExtInf): Decimal
    requires AllDigits(m.whole)
  {
    Decimal(m.negative, N.Decimal(m.whole), StripZeros(m.fraction))
  }

  lemma {:induction false} FindExtInfDigits(s: string)
    ensures FindExtInf(s).Some? ==> AllDigits(FindExtInf(s).value.whole)
  {
    if MatchExtInf(s).None? && s != "" {
      FindExtInfDigits(s[1..]);
    }
  }

  // ---------- attrRegex: ([a-zA-Z0-9_-]+)="([^"]*)" ----------

  predicate IsKeyChar(c: char) {
    'a' <= c <= 'z' || 'A' <= c <= 'Z' || '0' <= c <= '9' || c == '_' || c == '-'
  }

  function KeyRun(s: string): (n: nat)
    ensures n <= |s|
  {
    if s == "" || !IsKeyChar(s[0]) then 0 else 1 + KeyRun(s[1..])
  }

  lemma {:induction false} KeyRunIsMaximal(s: string)
    ensures forall i | 0 <= i < KeyRun(s) :: IsKeyChar(s[i])
    ensures KeyRun(s) < |s| ==> !IsKeyChar(s[KeyRun(s)])
  {
    if s != "" && IsKeyChar(s[0]) {
      KeyRunIsMaximal(s[1..]);
    }
  }

  datatype Attr = Attr(key: string, value: string, end: nat)

  /** A match that starts at the first character, and where it ends. */
  function MatchAttr(s: string): (r: Option<Attr>)
    ensures r.Some? ==> 0 < r.value.end <= |s|
  {
    var n := KeyRun(s);
    if n == 0 || !("=\"" <= s[n..]) then None
    else
      var v := IndexOf(s[n + 2..], '"');
      if n + 2 + v == |s| then None else Some(Attr(s[..n], s[n + 2..n + 2 + v], n + 3 + v))
  }

  /** All matches, leftmost first and without overlap. */
  function FindAttrs(s: string): seq<Attr>
    decreases |s|
  {
    if s == "" then []
    else match MatchAttr(s)
         case Some(a) => [a] + FindAttrs(s[a.end..])
         case None => FindAttrs(s[1..])
  }

  /** The map the matches fill: a later match overwrites an earlier one. */
  function AttrMap(attrs: seq<Attr>): map<string, string> {
    if attrs == [] then map[]
    else AttrMap(attrs[..|attrs| - 1])[attrs[|attrs| - 1].key := attrs[|attrs| - 1].value]
  }

  /** `parseExtInfLine`; None is a line that does not match. */
  function ParseExtInf(line: string): Option<Track> {
    match FindExtInf(line)
    case None => None
    case Some(m) =>
      FindExtInfDigits(line);
      var attrs := FindAttrs(m.rest);
      var name :=
        match AfterLast(m.rest, ',')
        case Some(title) => Trim(title)
        case None => if attrs == [] then Trim(m.rest) else "";
      Some(Track(name, ParseLength(m), None, AttrMap(attrs), map[]))
  }

  // ---------- Tags ----------

  /** The first plain tag from position `i` on that the line starts with. */
  function PlainTag(line: string, i: nat): Option<(string, string)>
    requires i <= |PLAIN_TAGS|
    decreases |PLAIN_TAGS| - i
  {
    if i == |PLAIN_TAGS| then None
    else
      var prefix := "#" + PLAIN_TAGS[i] + ":";
      if prefix <= line then Some((PLAIN_TAGS[i], line[|prefix|..])) else PlainTag(line, i + 1)
  }

  predicate IsWhitelisted(line: string) {
    EXT_X <= line || PlainTag(line, 0).Some?
  }

  /** `parseTags`: at most one tag. */
  function ParseTag(line: string): Option<(string, string)> {
    if EXT_X <= line && IndexOf(line, ':') < |line| then
      Some((line[1..IndexOf(line, ':')], line[IndexOf(line, ':') + 1..]))
    else PlainTag(line, 0)
  }

  // ---------- Decoder ----------

  datatype Item = Got(track: Track) | Eof | BadHeader | BadExtInf | BadUrl

  /** Decoder state: the lines not scanned yet. */
  datatype Cursor = Cursor(lines: seq<string>, header: bool, done: bool)

  /** `parseNextTrack` from a line on, with the track begun so far; also the lines left. */
  function NextTrack(parseUrl: string -> Option<string>, lines: seq<string>, track: Option<Track>)
    : (Item, seq<string>)
  {
    if lines == [] then (Eof, [])
    else
      var line, rest := Trim(lines[0]), lines[1..];
      if line == "" || ("#" <= line && !("#EXT" <= line)) then NextTrack(parseUrl, rest, track)
      else if EXTINF <= line then
        (match ParseExtInf(line)
         case None => (BadExtInf, rest)
         case Some(t) => NextTrack(parseUrl, rest, Some(t)))
      else if track.Some? && IsWhitelisted(line) then
        var t := track.value;
        var tags := match ParseTag(line)
          case None => t.tags
          case Some(kv) => t.tags[kv.0 := kv.1];
        NextTrack(parseUrl, rest, Some(t.(tags := tags)))
      else if track.Some? && !("#" <= line) then
        (match parseUrl(line)
         case None => (BadUrl, rest)
         case Some(u) => (Got(track.value.(uri := Some(u))), rest))
      else NextTrack(parseUrl, rest, track)
  }

  function DecodeNext(parseUrl: string -> Option<string>, c: Cursor): (Item, Cursor) {
    if c.done then (Eof, c)
    else if !c.header && c.lines == [] then (Eof, c)
    else if !c.header && !(HEADER <= Trim(c.lines[0])) then (BadHeader, c.(lines := c.lines[1..]))
    else
      var (item, rest) := NextTrack(parseUrl, if c.header then c.lines else c.lines[1..], None);
      (item, Cursor(rest, true, item.Eof?))
  }

  class Decoder {
    const parseUrl: string -> Option<string>
    var lines: seq<string>   // what the scanner has still to deliver
    var header: bool
    var done: bool

    function State(): Cursor
      reads this
    {
      Cursor(lines, header, done)
    }

    constructor (text: string, parseUrl: string -> Option<string>)
      ensures State() == Cursor(Lines(text), false, false) && this.parseUrl == parseUrl
    {
      this.parseUrl := parseUrl;
      lines, header, done := Lines(text), false, false;
    }

    method Decode() returns (item: Item)
      modifies this
      ensures (item, State()) == DecodeNext(parseUrl, old(State()))
    {
      if done {
        return Eof;
      }
      if !header {
        if lines == [] {
          return Eof;
        }
        var line := Trim(lines[0]);
        lines := lines[1..];
        if !(HEADER <= line) {
          return BadHeader;
        }
        header := true;
      }
      item := ParseNextTrack();
      if item.Eof? {
        done := true;
      }
    }

    method ParseNextTrack() returns (item: Item)
      modifies this`lines
      ensures (item, lines) == NextTrack(parseUrl, old(lines), None)
    {
      var track: Option<Track> := None;
      while lines != []
        invariant NextTrack(parseUrl, lines, track) == NextTrack(parseUrl, old(lines), None)
        decreases |lines|
      {
        var line := Trim(lines[0]);
        lines := lines[1..];
        if line == "" || ("#" <= line && !("#EXT" <= line)) {
          continue;
        }
        if EXTINF <= line {
          track := ParseExtInf(line);
          if track.None? {
            return BadExtInf;
          }
          continue;
        }
        if track.Some? && IsWhitelisted(line) {
          var tag := ParseTag(line);
          if tag.Some? {
            track := Some(track.value.(tags := track.value.tags[tag.value.0 := tag.value.1]));
          }
          continue;
        }
        if track.Some? && !("#" <= line) {
          var u := parseUrl(line);
          if u.None? {
            return BadUrl;
          }
          return Got(track.value.(uri := u));
        }
      }
      return Eof;
    }
  }

  // ---------- Encoder ----------

  /** At most six significant digits and no exponent needed: what `%.6g` prints in full. */
  predicate IsPlain(d: Decimal) {
    && AllDigits(d.fraction) && (d.fraction != "" ==> d.fraction[|d.fraction| - 1] != '0')
    && |Digits(d.whole)| <= 6
    && (if d.whole > 0 then |Digits(d.whole)| + |d.fraction| <= 6
        else LeadingZeros(d.fraction) <= 3 && |d.fraction| - LeadingZeros(d.fraction) <= 6)
  }

  function LeadingZeros(s: string): nat {
    if s != "" && s[0] == '0' then 1 + LeadingZeros(s[1..]) else 0
  }

  function PrintPlain(d: Decimal): string {
    (if d.negative then "-" else "") + Digits(d.whole) + if d.fraction == "" then "" else "." + d.fraction
  }

  /** `%.6g`; `other` stands for what is printed when the number is rounded or needs an exponent. */
  function PrintLength(d: Decimal, other: Decimal -> string): string {
    if IsPlain(d) then PrintPlain(d) else other(d)
  }

  function Pair(key: string, value: string): string {
    key + "=\"" + value + "\""
  }

  /** The pairs of `keys`, joined by spaces. */
  function JoinPairs(attrs: map<string, string>, keys: seq<string>): string
    requires forall k | k in keys :: k in attrs
  {
    if keys == [] then ""
    else if |keys| == 1 then Pair(keys[0], attrs[keys[0]])
    else Pair(keys[0], attrs[keys[0]]) + " " + JoinPairs(attrs, keys[1..])
  }

  function HeaderLine(attrs: map<string, string>, keys: seq<string>): string
    requires forall k | k in keys :: k in attrs
  {
    HEADER + if keys == [] then "" else " " + JoinPairs(attrs, keys)
  }

  function ExtInfLine(t: Track, keys: seq<string>, other: Decimal -> string): string
    requires forall k | k in keys :: k in t.attrs
  {
    EXTINF + PrintLength(t.length, other)
    + (if keys == [] then "" else " " + JoinPairs(t.attrs, keys))
    + if t.name == "" then "" else "," + t.name
  }

  function TagLine(key: string, value: string): string {
    "#" + key + ":" + value
  }

  function TagLines(tags: map<string, string>, keys: seq<string>): string
    requires forall k | k in keys :: k in tags
  {
    if keys == [] then "" else TagLine(keys[0], tags[keys[0]]) + "\n" + TagLines(tags, keys[1..])
  }

  /** `keys` lists the keys of a map once each, in the order `less` of what is printed for them. */
  ghost predicate IsListing(keys: seq<string>, m: map<string, string>, less: (string, string) -> bool) {
    Distinct(keys) && (forall k :: k in keys <==> k in m) && Sorted(less, keys)
  }

  /** Order of attribute pairs: as printed text. */
  function PairLess(attrs: map<string, string>): (string, string) -> bool {
    (a: string, b: string) => a in attrs && b in attrs && StringLess(Pair(a, attrs[a]), Pair(b, attrs[b]))
  }

  function KeyOrder(): (string, string) -> bool {
    (a: string, b: string) => StringLess(a, b)
  }

  ghost predicate IsTrackText(t: Track, text: string, other: Decimal -> string) {
    exists keys, tagKeys ::
      && IsListing(keys, t.attrs, PairLess(t.attrs)) && IsListing(tagKeys, t.tags, KeyOrder())
      && text == ExtInfLine(t, keys, other) + "\n" + TagLines(t.tags, tagKeys)
                 + if t.uri.Some? then t.uri.value + "\n" else ""
  }

  ghost predicate IsHeaderText(attrs: map<string, string>, text: string) {
    exists keys :: IsListing(keys, attrs, PairLess(attrs)) && text == HeaderLine(attrs, keys) + "\n"
  }

  datatype EncodeError = AlreadyClosed | MissingUri

  class Encoder {
    const headerAttrs: map<string, string>
    const other: Decimal -> string
    var out: string   // the writer
    var headerWritten: bool
    var closed: bool

    constructor (headerAttrs: map<string, string>, other: Decimal -> string)
      ensures this.headerAttrs == headerAttrs && this.other == other
      ensures out == "" && !headerWritten && !closed
    {
      this.headerAttrs, this.other := headerAttrs, other;
      out, headerWritten, closed := "", false, false;
    }

    /** The keys of a map, collected in map order and then sorted. */
    static method SortedKeys(m: map<string, string>, less: (string, string) -> bool) returns (keys: seq<string>)
      requires forall ks | (forall k | k in ks :: k in m) :: StrictWeak(less, ks)
      ensures IsListing(keys, m, less)
    {
      var collected := KeysOf(m);
      keys := SortSlice(collected, less);
      SameElements(collected, keys);
      PermutationStaysDistinct(collected, keys);
    }

    method WriteHeader()
      modifies this
      ensures headerWritten && closed == old(closed)
      ensures old(headerWritten) ==> out == old(out)
      ensures !old(headerWritten) ==> exists text :: IsHeaderText(headerAttrs, text) && out == old(out) + text
    {
      if headerWritten {
        return;
      }
      PairLessIsStrictWeak(headerAttrs);
      var keys := SortedKeys(headerAttrs, PairLess(headerAttrs));
      var text := HeaderLine(headerAttrs, keys) + "\n";
      assert IsHeaderText(headerAttrs, text);
      out := out + text;
      headerWritten := true;
    }

    /** The lines of one tag per key. */
    static method PrintTags(tags: map<string, string>, keys: seq<string>) returns (text: string)
      requires forall k | k in keys :: k in tags
      ensures text == TagLines(tags, keys)
    {
      text := "";
      for i := 0 to |keys|
        invariant text + TagLines(tags, keys[i..]) == TagLines(tags, keys)
      {
        assert keys[i] in keys && keys[i..][1..] == keys[i + 1..];
        text := text + (TagLine(keys[i], tags[keys[i]]) + "\n");
      }
      assert keys[|keys|..] == [] && text + "" == text;
    }

    /** Everything `encodeTrack` writes for a track after the header. */
    method PrintTrack(t: Track) returns (text: string)
      ensures IsTrackText(t, text, other)
    {
      PairLessIsStrictWeak(t.attrs);
      KeyOrderIsStrictWeak();
      var keys := SortedKeys(t.attrs, PairLess(t.attrs));
      var tagKeys := SortedKeys(t.tags, KeyOrder());
      var tagText := PrintTags(t.tags, tagKeys);
      text := ExtInfLine(t, keys, other) + "\n" + tagText + if t.uri.Some? then t.uri.value + "\n" else "";
    }

    /** A track without URI is an error, but its EXTINF and tag lines are already written. */
    method Encode(t: Track) returns (error: Option<EncodeError>)
      modifies this
      ensures closed == old(closed)
      ensures closed ==> error == Some(AlreadyClosed) && out == old(out) && headerWritten == old(headerWritten)
      ensures !closed ==> headerWritten && error == if t.uri.None? then Some(MissingUri) else None
      ensures !closed && old(headerWritten) ==> exists text :: IsTrackText(t, text, other) && out == old(out) + text
      ensures !closed && !old(headerWritten) ==>
        exists head, text ::
          IsHeaderText(headerAttrs, head) && IsTrackText(t, text, other) && out == old(out) + head + text
    {
      if closed {
        return Some(AlreadyClosed);
      }
      WriteHeader();
      var text := PrintTrack(t);
      out := out + text;
      error := if t.uri.None? then Some(MissingUri) else None;
    }

    method Close()
      modifies this`closed
      ensures closed
    {
      closed := true;
    }
  }

  lemma PairLessIsStrictWeak(attrs: map<string, string>)
    ensures forall ks | (forall k | k in ks :: k in attrs) :: StrictWeak(PairLess(attrs), ks)
  {
    forall ks | (forall k | k in ks :: k in attrs) ensures StrictWeak(PairLess(attrs), ks) {
      forall x, y, z | x in ks && y in ks && z in ks
        ensures !PairLess(attrs)(x, x)
        ensures PairLess(attrs)(x, y) && PairLess(attrs)(y, z) ==> PairLess(attrs)(x, z)
        ensures PairLess(attrs)(x, z) ==> PairLess(attrs)(x, y) || PairLess(attrs)(y, z)
      {
        StringLessIsStrictTotal(Pair(x, attrs[x]), Pair(y, attrs[y]), Pair(z, attrs[z]));
      }
    }
  }

  lemma KeyOrderIsStrictWeak()
    ensures forall ks :: StrictWeak(KeyOrder(), ks)
  {
    forall ks ensures StrictWeak(KeyOrder(), ks) {
      forall x, y, z
        ensures !KeyOrder()(x, x)
        ensures KeyOrder()(x, y) && KeyOrder()(y, z) ==> KeyOrder()(x, z)
        ensures KeyOrder()(x, z) ==> KeyOrder()(x, y) || KeyOrder()(y, z)
      {
        StringLessIsStrictTotal(x, y, z);
      }
    }
  }
}

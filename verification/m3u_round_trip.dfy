/**
 Decoding undoes encoding: for printable tracks the decoder returns exactly what the
 encoder was given, and then the end of the file.
 */
module M3uRoundTrip {
  import opened Basics
  import opened M3uText
  import opened M3uCodec
  import N = NaturalOrder

  // ---------- What can be printed and read back ----------

  predicate IsKey(k: string) {
    k != "" && forall i | 0 <= i < |k| :: IsKeyChar(k[i])
  }

  predicate IsValue(v: string) {
    '"' !in v && '\n' !in v
  }

  ghost predicate PrintableAttrs(attrs: map<string, string>) {
    forall k <- attrs :: IsKey(k) && IsValue(attrs[k])
  }

  predicate IsTagKey(k: string) {
    k in PLAIN_TAGS || ("EXT-X-" <= k && ':' !in k && '\n' !in k)
  }

  predicate IsTagValue(v: string) {
    '\n' !in v && (v != "" ==> !IsSpace(v[|v| - 1]))
  }

  predicate IsUri(u: string, parseUrl: string -> Option<string>) {
    u != "" && Trimmed(u) && '\n' !in u && u[0] != '#' && parseUrl(u) == Some(u)
  }

  /** What every EXTINF line read back needs: a plain length, and a name without comma or quote. */
  ghost predicate PrintableLine(t: Track) {
    && Trimmed(t.name) && ',' !in t.name && '"' !in t.name && '\n' !in t.name
    && PrintableAttrs(t.attrs) && IsPlain(t.length)
  }

  ghost predicate NoCommas(attrs: map<string, string>) {
    forall k <- attrs :: ',' !in attrs[k]
  }

  /** An empty name only where no attribute value has a comma. */
  ghost predicate Printable(t: Track, parseUrl: string -> Option<string>) {
    && PrintableLine(t) && (t.name == "" ==> NoCommas(t.attrs))
    && (forall k <- t.tags :: IsTagKey(k) && IsTagValue(t.tags[k]))
    && t.uri.Some? && IsUri(t.uri.value, parseUrl)
  }

  // ---------- Attributes ----------

  lemma KeyRunIs(s: string, n: nat)
    requires n <= |s| && (forall i | 0 <= i < n :: IsKeyChar(s[i])) && (n < |s| ==> !IsKeyChar(s[n]))
    ensures KeyRun(s) == n
  {
    KeyRunIsMaximal(s);
  }

  /** The match of a printed pair. */
  function AttrOf(k: string, v: string): Attr {
    Attr(k, v, |k| + |v| + 3)
  }

  lemma PairParts(k: string, v: string, rest: string)
    ensures var s, n := Pair(k, v) + rest, |k|;
      && |s| == n + |v| + 3 + |rest|
      && s[..n] == k && s[n..n + 2] == "=\"" && s[n + 2..] == v + ("\"" + rest)
      && s[n + 2..n + 2 + |v|] == v && s[n + |v| + 3..] == rest
  {
  }

  lemma QuoteAfter(v: string, rest: string)
    requires '"' !in v
    ensures IndexOf(v + ("\"" + rest), '"') == |v|
  {
    IndexOfFirst(v + ("\"" + rest), '"', |v|);
  }

  lemma KeyBefore(s: string, k: string)
    requires IsKey(k) && |k| + 2 <= |s| && s[..|k|] == k && s[|k|..|k| + 2] == "=\""
    ensures KeyRun(s) == |k| && "=\"" <= s[|k|..]
  {
    assert forall i | 0 <= i < |k| :: s[i] == s[..|k|][i];
    assert s[|k|] == s[|k|..|k| + 2][0] == '=';
    assert s[|k|..][..2] == s[|k|..|k| + 2];
    KeyRunIs(s, |k|);
  }

  /** A printed pair is the first match, and the scan goes on behind it. */
  lemma MatchPair(s: string, k: string, v: string, rest: string)
    requires IsKey(k) && IsValue(v) && s == Pair(k, v) + rest
    ensures FindAttrs(s) == [AttrOf(k, v)] + FindAttrs(rest)
  {
    PairParts(k, v, rest);
    KeyBefore(s, k);
    QuoteAfter(v, rest);
    assert MatchAttr(s) == Some(AttrOf(k, v));
  }

  lemma {:induction false} NoQuoteNoAttr(s: string)
    requires '"' !in s
    ensures FindAttrs(s) == []
  {
    if s != "" {
      var n := KeyRun(s);
      assert forall i | 0 <= i < |s| :: s[i] in s;
      assert n + 1 < |s| ==> s[n..][1] == s[n + 1];
      assert !("=\"" <= s[n..]);
      NoQuoteNoAttr(s[1..]);
    }
  }

  /** The matches in the printed pairs of `keys`. */
  function AttrsOf(attrs: map<string, string>, keys: seq<string>): seq<Attr>
    requires forall k | k in keys :: k in attrs
  {
    if keys == [] then []
    else [AttrOf(keys[0], attrs[keys[0]])] + AttrsOf(attrs, keys[1..])
  }

  lemma SkipOne(s: string)
    requires s != "" && !IsKeyChar(s[0])
    ensures FindAttrs(s) == FindAttrs(s[1..])
  {
    KeyRunIs(s, 0);
  }

  lemma LastPair(s: string, k: string, v: string, tail: string)
    requires IsKey(k) && IsValue(v) && s == Pair(k, v) + tail && '"' !in tail
    ensures FindAttrs(s) == [AttrOf(k, v)]
  {
    MatchPair(s, k, v, tail);
    NoQuoteNoAttr(tail);
  }

  lemma PairAndMore(k: string, v: string, joined: string, others: string, tail: string)
    requires IsKey(k) && IsValue(v) && joined == Pair(k, v) + " " + others
    ensures FindAttrs(joined + tail) == [AttrOf(k, v)] + FindAttrs(others + tail)
  {
    var rest := " " + (others + tail);
    assert joined + tail == Pair(k, v) + rest;
    MatchPair(joined + tail, k, v, rest);
    SkipOne(rest);
    assert rest[1..] == others + tail;
  }

  lemma JoinedFirst(attrs: map<string, string>, keys: seq<string>)
    requires |keys| > 1 && forall k | k in keys :: k in attrs
    ensures JoinPairs(attrs, keys) == Pair(keys[0], attrs[keys[0]]) + " " + JoinPairs(attrs, keys[1..])
  {
  }

  lemma {:induction false} FindAttrsInPairs(attrs: map<string, string>, keys: seq<string>, tail: string)
    requires forall k | k in keys :: k in attrs && IsKey(k) && IsValue(attrs[k])
    requires '"' !in tail
    ensures FindAttrs(JoinPairs(attrs, keys) + tail) == AttrsOf(attrs, keys)
  {
    if keys == [] {
      NoQuoteNoAttr(tail);
      assert "" + tail == tail;
    } else if |keys| == 1 {
      LastPair(JoinPairs(attrs, keys) + tail, keys[0], attrs[keys[0]], tail);
      assert AttrsOf(attrs, keys[1..]) == [];
    } else {
      JoinedFirst(attrs, keys);
      PairAndMore(keys[0], attrs[keys[0]], JoinPairs(attrs, keys), JoinPairs(attrs, keys[1..]), tail);
      FindAttrsInPairs(attrs, keys[1..], tail);
    }
  }

  lemma {:induction false} AttrsOfAt(attrs: map<string, string>, keys: seq<string>, i: nat)
    requires (forall k | k in keys :: k in attrs) && i < |keys|
    ensures |AttrsOf(attrs, keys)| == |keys|
    ensures AttrsOf(attrs, keys)[i].key == keys[i] && keys[i] in keys && AttrsOf(attrs, keys)[i].value == attrs[keys[i]]
  {
    if i > 0 {
      AttrsOfAt(attrs, keys[1..], i - 1);
    } else if |keys| > 1 {
      AttrsOfAt(attrs, keys[1..], 0);
    }
  }

  /** The map filled from matches has their keys, and the value of the only match of each. */
  lemma {:induction false} AttrMapIs(found: seq<Attr>, attrs: map<string, string>)
    requires forall i | 0 <= i < |found| :: found[i].key in attrs && found[i].value == attrs[found[i].key]
    ensures forall k :: k in AttrMap(found) <==> exists i :: 0 <= i < |found| && found[i].key == k
    ensures forall k <- AttrMap(found) :: k in attrs && AttrMap(found)[k] == attrs[k]
  {
    if found != [] {
      AttrMapIs(found[..|found| - 1], attrs);
    }
  }

  lemma AttrsReadBack(attrs: map<string, string>, keys: seq<string>)
    requires forall k :: k in keys <==> k in attrs
    ensures AttrMap(AttrsOf(attrs, keys)) == attrs
  {
    var found := AttrsOf(attrs, keys);
    forall i | 0 <= i < |keys|
      ensures |found| == |keys| && found[i].key == keys[i] && keys[i] in keys && found[i].value == attrs[keys[i]]
    {
      AttrsOfAt(attrs, keys, i);
    }
    assert keys == [] ==> found == [];
    AttrMapIs(found, attrs);
    forall k | k in attrs ensures k in AttrMap(found) {
      var i :| 0 <= i < |keys| && keys[i] == k;
      assert found[i].key == k;
    }
  }

  // ---------- The EXTINF line ----------

  /** What follows the length on the line. */
  function Tail(t: Track, keys: seq<string>): string
    requires forall k | k in keys :: k in t.attrs
  {
    (if keys == [] then "" else " " + JoinPairs(t.attrs, keys)) + NameTail(t)
  }

  function NameTail(t: Track): string {
    if t.name == "" then "" else "," + t.name
  }

  lemma {:induction false} StripNothing(s: string)
    requires s != "" ==> s[|s| - 1] != '0'
    ensures StripZeros(s) == s
  {
  }

  lemma FractionOf(fraction: string, tail: string)
    requires AllDigits(fraction) && (tail != "" ==> tail[0] == ' ' || tail[0] == ',')
    ensures MatchFraction((if fraction == "" then "" else "." + fraction) + tail) == (fraction, tail)
  {
    if fraction == "" {
      assert "" + tail == tail;
    } else {
      var s := "." + fraction + tail;
      assert s[1..] == fraction + tail;
      RunOf(fraction, tail);
      assert (fraction + tail)[..|fraction|] == fraction && (fraction + tail)[|fraction|..] == tail;
    }
  }

  lemma SignOf(negative: bool, digits: string, rest: string)
    requires digits != "" && AllDigits(digits)
    ensures var s := (if negative then "-" else "") + digits + rest;
      (s[0] == '-') == negative && DropSign(s) == digits + rest
  {
    assert N.IsDigit(digits[0]);
    var s := (if negative then "-" else "") + digits + rest;
    assert negative ==> s[1..] == digits + rest;
    assert !negative ==> s == digits + rest && s[0] == digits[0];
  }

  lemma PrefixOf(first: string, second: string)
    ensures first <= first + second && (first + second)[..|first|] == first && (first + second)[|first|..] == second
  {
  }

  lemma MatchLength(d: Decimal, tail: string)
    requires IsPlain(d) && (tail != "" ==> tail[0] == ' ' || tail[0] == ',')
    requires '\n' !in SkipSpaces(tail)
    ensures MatchNumber(PrintPlain(d) + tail) == Some(ExtInf(d.negative, Digits(d.whole), d.fraction, SkipSpaces(tail)))
  {
    var sign, digits := if d.negative then "-" else "", Digits(d.whole);
    var fraction := if d.fraction == "" then "" else "." + d.fraction;
    var after := fraction + tail;
    assert PrintPlain(d) + tail == sign + digits + after;
    SignOf(d.negative, digits, after);
    assert after != "" ==> after[0] in {'.', ' ', ','};
    RunOf(digits, after);
    PrefixOf(digits, after);
    FractionOf(d.fraction, tail);
  }

  lemma LengthReadBack(m: ExtInf, d: Decimal)
    requires IsPlain(d) && m.whole == Digits(d.whole) && m.fraction == d.fraction && m.negative == d.negative
    ensures ParseLength(m) == d
  {
    DigitsValue(d.whole);
    StripNothing(d.fraction);
  }

  lemma {:induction false} JoinedHasNo(attrs: map<string, string>, keys: seq<string>, c: char)
    requires (forall k | k in keys :: k in attrs && c !in k && c !in attrs[k]) && c !in {'=', '"', ' '}
    ensures c !in JoinPairs(attrs, keys)
  {
    if keys != [] {
      assert keys[0] in keys;
      JoinedHasNo(attrs, keys[1..], c);
    }
  }

  lemma KeyHasNo(k: string, c: char)
    requires IsKey(k) && !IsKeyChar(c)
    ensures c !in k
  {
  }

  /** Printed pairs begin with a key and end with a quote. */
  lemma {:induction false} JoinedEnds(attrs: map<string, string>, keys: seq<string>)
    requires keys != [] && forall k | k in keys :: k in attrs
    ensures var j := JoinPairs(attrs, keys); j != "" && j[|j| - 1] == '"' && (IsKey(keys[0]) ==> IsKeyChar(j[0]))
  {
    if |keys| > 1 {
      JoinedEnds(attrs, keys[1..]);
    }
  }

  lemma JoinedNoNewline(t: Track, keys: seq<string>)
    requires PrintableAttrs(t.attrs) && '\n' !in t.name && forall k | k in keys :: k in t.attrs
    ensures '\n' !in JoinPairs(t.attrs, keys) + NameTail(t)
  {
    forall k | k in keys ensures '\n' !in k && '\n' !in t.attrs[k] {
      KeyHasNo(k, '\n');
    }
    JoinedHasNo(t.attrs, keys, '\n');
  }

  lemma TailStarts(t: Track, keys: seq<string>)
    requires PrintableAttrs(t.attrs) && forall k | k in keys :: k in t.attrs
    ensures Tail(t, keys) != "" ==> Tail(t, keys)[0] == ' ' || Tail(t, keys)[0] == ','
    ensures SkipSpaces(Tail(t, keys)) == JoinPairs(t.attrs, keys) + NameTail(t)
  {
    if keys != [] {
      assert keys[0] in keys;
      JoinedEnds(t.attrs, keys);
      BlankAndName(JoinPairs(t.attrs, keys), NameTail(t));
    } else {
      assert Tail(t, keys) == NameTail(t) == JoinPairs(t.attrs, keys) + NameTail(t);
    }
  }

  lemma BlankAndName(joined: string, name: string)
    requires joined != "" && IsKeyChar(joined[0])
    ensures " " + joined + name != "" && (" " + joined + name)[0] == ' '
    ensures SkipSpaces(" " + joined + name) == joined + name
  {
    SkipBlank(joined + name);
    assert " " + joined + name == " " + (joined + name);
  }

  lemma SkipBlank(s: string)
    requires s != "" && !IsRegexSpace(s[0])
    ensures SkipSpaces(" " + s) == s
  {
    assert (" " + s)[1..] == s;
  }

  lemma TailEnds(t: Track, keys: seq<string>)
    requires PrintableAttrs(t.attrs) && Trimmed(t.name) && forall k | k in keys :: k in t.attrs
    ensures Tail(t, keys) != "" ==> !IsSpace(Tail(t, keys)[|Tail(t, keys)| - 1])
  {
    if t.name != "" {
      assert Tail(t, keys)[|Tail(t, keys)| - 1] == t.name[|t.name| - 1];
    } else if keys != [] {
      var j := JoinPairs(t.attrs, keys);
      JoinedEnds(t.attrs, keys);
      assert Tail(t, keys) == " " + j;
      assert (" " + j)[|j|] == j[|j| - 1];
    }
  }

  lemma NameReadBack(t: Track, keys: seq<string>)
    requires PrintableLine(t) && (t.name == "" ==> NoCommas(t.attrs)) && forall k :: k in keys <==> k in t.attrs
    ensures var rest := JoinPairs(t.attrs, keys) + NameTail(t);
      t.name == match AfterLast(rest, ',')
        case Some(title) => Trim(title)
        case None => if keys == [] then Trim(rest) else ""
  {
    var j := JoinPairs(t.attrs, keys);
    if t.name != "" {
      assert j + NameTail(t) == j + [','] + t.name;
      AfterLastSplits(j, t.name, ',');
      TrimmedIsTrim(t.name);
    } else {
      forall k | k in keys ensures ',' !in k && ',' !in t.attrs[k] {
        KeyHasNo(k, ',');
      }
      JoinedHasNo(t.attrs, keys, ',');
      assert j + NameTail(t) == j;
      AfterLastNone(j, ',');
    }
  }

  /** The groups of the match on a printed line. */
  lemma ExtInfFound(t: Track, keys: seq<string>, other: Decimal -> string)
    requires PrintableLine(t) && forall k :: k in keys <==> k in t.attrs
    ensures FindExtInf(ExtInfLine(t, keys, other))
         == Some(ExtInf(t.length.negative, Digits(t.length.whole), t.length.fraction,
                        JoinPairs(t.attrs, keys) + NameTail(t)))
  {
    var tail := Tail(t, keys);
    ExtInfLineIs(t, keys, other);
    TailStarts(t, keys);
    JoinedNoNewline(t, keys);
    PrefixOf(EXTINF, PrintPlain(t.length) + tail);
    MatchLength(t.length, tail);
  }

  lemma ExtInfLineIs(t: Track, keys: seq<string>, other: Decimal -> string)
    requires IsPlain(t.length) && forall k | k in keys :: k in t.attrs
    ensures ExtInfLine(t, keys, other) == EXTINF + (PrintPlain(t.length) + Tail(t, keys))
  {
  }

  /** Parsing a printed EXTINF line gives back name, length and attributes. */
  lemma ExtInfReadBack(t: Track, keys: seq<string>, other: Decimal -> string)
    requires PrintableLine(t) && (t.name == "" ==> NoCommas(t.attrs)) && forall k :: k in keys <==> k in t.attrs
    ensures ParseExtInf(ExtInfLine(t, keys, other)) == Some(Track(t.name, t.length, None, t.attrs, map[]))
  {
    var line := ExtInfLine(t, keys, other);
    ExtInfFound(t, keys, other);
    LengthReadBack(FindExtInf(line).value, t.length);
    FindAttrsInPairs(t.attrs, keys, NameTail(t));
    AttrsReadBack(t.attrs, keys);
    NameReadBack(t, keys);
  }

  /** Without a name, the line is read back without one exactly when no attribute value has a comma. */
  lemma EmptyNameReadBack(t: Track, keys: seq<string>, other: Decimal -> string)
    requires PrintableLine(t) && t.name == "" && forall k :: k in keys <==> k in t.attrs
    ensures var back := ParseExtInf(ExtInfLine(t, keys, other));
      back.Some? && (back.value.name == "" <==> NoCommas(t.attrs))
  {
    if NoCommas(t.attrs) {
      ExtInfReadBack(t, keys, other);
    } else {
      ExtInfFound(t, keys, other);
      var k :| k in t.attrs && ',' in t.attrs[k];
      JoinedHas(t.attrs, keys, k, ',');
      JoinedEnds(t.attrs, keys);
      var joined := JoinPairs(t.attrs, keys);
      assert joined + NameTail(t) == joined;
      AfterLastEnds(joined, ',');
      TrimKeepsInk(AfterLast(joined, ',').value);
    }
  }

  lemma {:induction false} JoinedHas(attrs: map<string, string>, keys: seq<string>, k: string, c: char)
    requires (forall x | x in keys :: x in attrs) && k in keys && c in attrs[k]
    ensures c in JoinPairs(attrs, keys)
  {
    if keys[0] != k {
      JoinedHas(attrs, keys[1..], k, c);
    }
  }

  // ---------- Lines that survive scanning ----------

  /** A line starting with `#` and not ending in a space is scanned and trimmed to itself. */
  predicate IsSharpLine(line: string) {
    line != "" && line[0] == '#' && '\n' !in line && !IsSpace(line[|line| - 1])
  }

  lemma SharpLine(line: string)
    requires IsSharpLine(line)
    ensures CleanLine(line) && Trim(line) == line
  {
    TrimmedIsTrim(line);
  }

  lemma {:induction false} NumberText(d: Decimal)
    requires IsPlain(d)
    ensures var n := PrintPlain(d); n != "" && '\n' !in n && !IsSpace(n[|n| - 1])
  {
    var n, digits := PrintPlain(d), Digits(d.whole);
    assert forall c | c in digits :: N.IsDigit(c);
    assert forall c | c in d.fraction :: N.IsDigit(c);
    if d.fraction == "" {
      assert n[|n| - 1] == digits[|digits| - 1] && digits[|digits| - 1] in digits;
    } else {
      assert n[|n| - 1] == d.fraction[|d.fraction| - 1] && d.fraction[|d.fraction| - 1] in d.fraction;
    }
  }

  lemma ThreeParts(first: string, second: string, third: string)
    requires first != "" && first[0] == '#' && '\n' !in first
    requires second != "" && '\n' !in second && !IsSpace(second[|second| - 1])
    requires '\n' !in third && (third != "" ==> !IsSpace(third[|third| - 1]))
    ensures IsSharpLine(first + (second + third))
  {
    var line := first + (second + third);
    if third == "" {
      assert line[|line| - 1] == second[|second| - 1];
    } else {
      assert line[|line| - 1] == third[|third| - 1];
    }
  }

  lemma TailNoNewline(t: Track, keys: seq<string>)
    requires PrintableAttrs(t.attrs) && '\n' !in t.name && forall k | k in keys :: k in t.attrs
    ensures '\n' !in Tail(t, keys)
  {
    JoinedNoNewline(t, keys);
    assert forall c | c in Tail(t, keys) :: c == ' ' || c in JoinPairs(t.attrs, keys) + NameTail(t);
  }

  lemma ExtInfIsSharp(t: Track, keys: seq<string>, other: Decimal -> string)
    requires PrintableLine(t) && forall k | k in keys :: k in t.attrs
    ensures IsSharpLine(ExtInfLine(t, keys, other)) && EXTINF <= ExtInfLine(t, keys, other)
  {
    ExtInfLineIs(t, keys, other);
    NumberText(t.length);
    TailNoNewline(t, keys);
    TailEnds(t, keys);
    ThreeParts(EXTINF, PrintPlain(t.length), Tail(t, keys));
    PrefixOf(EXTINF, PrintPlain(t.length) + Tail(t, keys));
  }

  // ---------- Tag lines ----------

  /** No plain tag is the beginning of another: they differ in their fourth or fifth letter. */
  lemma PlainTagsDiffer(i: nat, j: nat)
    requires i < |PLAIN_TAGS| && j < |PLAIN_TAGS| && i != j
    ensures |PLAIN_TAGS[i]| >= 6 && |PLAIN_TAGS[j]| >= 6
    ensures PLAIN_TAGS[i][3] != PLAIN_TAGS[j][3] || PLAIN_TAGS[i][4] != PLAIN_TAGS[j][4]
  {
  }

  lemma {:induction false} PlainTagBack(i: nat, j: nat, v: string)
    requires j <= i < |PLAIN_TAGS|
    ensures PlainTag(TagLine(PLAIN_TAGS[i], v), j) == Some((PLAIN_TAGS[i], v))
    decreases i - j
  {
    var k, line := PLAIN_TAGS[i], TagLine(PLAIN_TAGS[i], v);
    if j == i {
      PrefixOf("#" + k + ":", v);
    } else {
      PlainTagsDiffer(i, j);
      var prefix := "#" + PLAIN_TAGS[j] + ":";
      assert line[4] == k[3] && line[5] == k[4] && prefix[4] == PLAIN_TAGS[j][3] && prefix[5] == PLAIN_TAGS[j][4];
      assert !(prefix <= line);
      PlainTagBack(i, j + 1, v);
    }
  }

  /** The letter after `#EXT` tells the tags of the three kinds apart. */
  lemma TagKind(k: string, v: string)
    requires IsTagKey(k)
    ensures var line := TagLine(k, v);
      && "#EXT" <= line && !(EXTINF <= line) && '\n' !in k
      && (EXT_X <= line <==> "EXT-X-" <= k)
  {
    var line := TagLine(k, v);
    assert forall i | 0 <= i < |k| :: line[i + 1] == k[i];
    if k in PLAIN_TAGS {
      PlainLetters(k);
    }
    assert line[4] == k[3];
  }

  lemma PlainLetters(k: string)
    requires k in PLAIN_TAGS
    ensures |k| >= 6 && k[0] == 'E' && k[1] == 'X' && k[2] == 'T' && k[3] != '-' && k[3] != 'I' && '\n' !in k
  {
  }

  lemma TagReadBack(k: string, v: string)
    requires IsTagKey(k)
    ensures IsWhitelisted(TagLine(k, v)) && ParseTag(TagLine(k, v)) == Some((k, v))
  {
    var line := TagLine(k, v);
    TagKind(k, v);
    if "EXT-X-" <= k {
      var head := "#" + k;
      assert ':' !in head && line[..|head|] == head && line[|head|] == ':';
      IndexOfFirst(line, ':', |head|);
      assert line[1..|head|] == k && line[|head| + 1..] == v;
    } else {
      var i :| 0 <= i < |PLAIN_TAGS| && PLAIN_TAGS[i] == k;
      PlainTagBack(i, 0, v);
    }
  }

  lemma TagIsSharp(k: string, v: string)
    requires IsTagKey(k) && IsTagValue(v)
    ensures IsSharpLine(TagLine(k, v))
  {
    TagKind(k, v);
    var line := TagLine(k, v);
    assert line[|line| - 1] == if v == "" then ':' else v[|v| - 1];
  }

  // ---------- One track ----------

  lemma ExtInfStep(t: Track, keys: seq<string>, parseUrl: string -> Option<string>, other: Decimal -> string,
                   lines: seq<string>)
    requires Printable(t, parseUrl) && forall k :: k in keys <==> k in t.attrs
    ensures NextTrack(parseUrl, [ExtInfLine(t, keys, other)] + lines, None)
         == NextTrack(parseUrl, lines, Some(Track(t.name, t.length, None, t.attrs, map[])))
  {
    var line := ExtInfLine(t, keys, other);
    ExtInfIsSharp(t, keys, other);
    SharpLine(line);
    ExtInfReadBack(t, keys, other);
    assert "#EXT" <= EXTINF && EXTINF <= line;
    assert ([line] + lines)[1..] == lines;
  }

  lemma TagStep(k: string, v: string, parseUrl: string -> Option<string>, t: Track, lines: seq<string>)
    requires IsTagKey(k) && IsTagValue(v)
    ensures NextTrack(parseUrl, [TagLine(k, v)] + lines, Some(t))
         == NextTrack(parseUrl, lines, Some(t.(tags := t.tags[k := v])))
  {
    TagIsSharp(k, v);
    SharpLine(TagLine(k, v));
    TagKind(k, v);
    TagReadBack(k, v);
    assert ([TagLine(k, v)] + lines)[1..] == lines;
  }

  lemma UriStep(u: string, parseUrl: string -> Option<string>, t: Track, lines: seq<string>)
    requires IsUri(u, parseUrl)
    ensures NextTrack(parseUrl, [u] + lines, Some(t)) == (Got(t.(uri := Some(u))), lines)
  {
    TrimmedIsTrim(u);
    assert !("#" <= u) && !(EXTINF <= u) && !(EXT_X <= u);
    NoPlainTag(u, 0);
    assert ([u] + lines)[1..] == lines;
  }

  lemma {:induction false} NoPlainTag(line: string, i: nat)
    requires i <= |PLAIN_TAGS| && line != "" && line[0] != '#'
    ensures PlainTag(line, i) == None
    decreases |PLAIN_TAGS| - i
  {
    if i < |PLAIN_TAGS| {
      var prefix := "#" + PLAIN_TAGS[i] + ":";
      assert prefix[0] == '#';
      NoPlainTag(line, i + 1);
    }
  }

  /** `m` with the entries of `keys` from `tags`. */
  function Filled(m: map<string, string>, tags: map<string, string>, keys: seq<string>): map<string, string>
    requires forall k | k in keys :: k in tags
    decreases |keys|
  {
    if keys == [] then m else Filled(m[keys[0] := tags[keys[0]]], tags, keys[1..])
  }

  lemma {:induction false} FilledIs(m: map<string, string>, tags: map<string, string>, keys: seq<string>)
    requires forall k | k in keys :: k in tags
    ensures forall k :: k in Filled(m, tags, keys) <==> k in m || k in keys
    ensures forall k <- Filled(m, tags, keys) :: Filled(m, tags, keys)[k] == if k in keys then tags[k] else m[k]
    decreases |keys|
  {
    if keys != [] {
      FilledIs(m[keys[0] := tags[keys[0]]], tags, keys[1..]);
    }
  }

  lemma {:induction false} TagSteps(tags: map<string, string>, keys: seq<string>, parseUrl: string -> Option<string>,
                                    t: Track, text: string)
    requires forall k | k in keys :: k in tags && IsTagKey(k) && IsTagValue(tags[k])
    ensures NextTrack(parseUrl, Lines(TagLines(tags, keys) + text), Some(t))
         == NextTrack(parseUrl, Lines(text), Some(t.(tags := Filled(t.tags, tags, keys))))
    decreases |keys|
  {
    if keys == [] {
      assert TagLines(tags, keys) + text == text;
    } else {
      var k := keys[0];
      assert k in keys;
      var line, rest := TagLine(k, tags[k]), TagLines(tags, keys[1..]) + text;
      assert TagLines(tags, keys) + text == line + "\n" + rest;
      TagIsSharp(k, tags[k]);
      SharpLine(line);
      LinesCons(line, rest);
      TagStep(k, tags[k], parseUrl, t, Lines(rest));
      TagSteps(tags, keys[1..], parseUrl, t.(tags := t.tags[k := tags[k]]), text);
    }
  }
}

/**
 What the two regular expressions and the title rule of the M3U parser find in any
 line, said in terms of the pieces of the line.
 */
module M3uMatching {
  import opened Basics
  import opened M3uText
  import opened M3uCodec
  import opened M3uRoundTrip
  import opened M3uReading
  import N = NaturalOrder

  // ---------- extinfRegex ----------

  const SPACES := {'\t', '\n', '\U{000C}', '\r', ' '}

  predicate OnlySpaces(s: string) {
    forall c | c in s :: c in SPACES
  }

  /** The text starts with something the expression could take more of: digits or a fraction. */
  predicate GoesOnWithDigits(s: string) {
    s != "" && N.IsDigit(s[0])
  }

  predicate GoesOnWithFraction(s: string) {
    |s| >= 2 && s[0] == '.' && N.IsDigit(s[1])
  }

  /** `s` is a match with these groups and these spaces, each part taking all that it can. */
  predicate IsMatch(s: string, m: ExtInf, spaces: string) {
    && s == "#EXTINF:" + (if m.negative then "-" else "") + m.whole
            + (if m.fraction == "" then "" else "." + m.fraction) + spaces + m.rest
    && m.whole != "" && AllDigits(m.whole) && AllDigits(m.fraction) && OnlySpaces(spaces)
    && !GoesOnWithDigits(spaces + m.rest) && (m.fraction == "" ==> !GoesOnWithFraction(spaces + m.rest))
    && (m.rest != "" ==> m.rest[0] !in SPACES) && '\n' !in m.rest
  }

  ghost predicate Matches(s: string, m: ExtInf) {
    exists spaces :: IsMatch(s, m, spaces)
  }

  lemma SpaceIs(c: char)
    ensures IsRegexSpace(c) <==> c in SPACES
  {
  }

  lemma {:induction false} SpacesIs(s: string) returns (spaces: string)
    ensures s == spaces + SkipSpaces(s) && OnlySpaces(spaces)
    ensures SkipSpaces(s) != "" ==> !IsRegexSpace(SkipSpaces(s)[0])
  {
    spaces := "";
    if s != "" && IsRegexSpace(s[0]) {
      var more := SpacesIs(s[1..]);
      spaces := [s[0]] + more;
    }
  }

  lemma {:induction false} SpacesSkipped(spaces: string, rest: string)
    requires OnlySpaces(spaces) && (rest != "" ==> !IsRegexSpace(rest[0]))
    ensures SkipSpaces(spaces + rest) == rest
  {
    if spaces == "" {
      assert spaces + rest == rest;
    } else {
      assert (spaces + rest)[1..] == spaces[1..] + rest && spaces[0] in spaces;
      assert forall c | c in spaces[1..] :: c in spaces;
      SpacesSkipped(spaces[1..], rest);
    }
  }

  lemma FractionIs(s: string)
    ensures var (fraction, after) := MatchFraction(s);
      && s == (if fraction == "" then "" else "." + fraction) + after
      && AllDigits(fraction) && (fraction != "" ==> !GoesOnWithDigits(after))
      && (fraction == "" ==> !GoesOnWithFraction(after))
  {
  }

  lemma FractionTaken(fraction: string, after: string)
    requires AllDigits(fraction) && !GoesOnWithDigits(after) && (fraction == "" ==> !GoesOnWithFraction(after))
    ensures MatchFraction((if fraction == "" then "" else "." + fraction) + after) == (fraction, after)
  {
    var s := (if fraction == "" then "" else "." + fraction) + after;
    if fraction == "" {
      assert s == after;
    } else {
      assert s[1..] == fraction + after;
      RunOf(fraction, after);
    }
  }

  lemma Pieces(a: string, b: string, c: string, d: string, e: string, f: string)
    ensures a + (b + (c + (d + (e + f)))) == a + b + c + d + e + f
  {
  }

  /** What stands behind the digits. */
  lemma TailIs(t: string) returns (spaces: string)
    ensures var (fraction, after) := MatchFraction(t);
      && after == spaces + SkipSpaces(after)
      && t == (if fraction == "" then "" else "." + fraction) + after && (fraction == "" ==> t == after)
      && AllDigits(fraction) && OnlySpaces(spaces)
      && (fraction != "" ==> !GoesOnWithDigits(after)) && (fraction == "" ==> !GoesOnWithFraction(after))
      && (SkipSpaces(after) != "" ==> SkipSpaces(after)[0] !in SPACES)
  {
    FractionIs(t);
    var (fraction, after) := MatchFraction(t);
    assert fraction == "" ==> t == after;
    spaces := SpacesIs(after);
    if SkipSpaces(after) != "" {
      SpaceIs(SkipSpaces(after)[0]);
    }
  }

  lemma DigitsIs(u: string, m: ExtInf) returns (t: string)
    requires MatchNumber(u) == Some(m)
    ensures u == (if m.negative then "-" else "") + (m.whole + t)
    ensures m.whole != "" && AllDigits(m.whole) && !GoesOnWithDigits(t)
    ensures (m.fraction, m.rest) == (MatchFraction(t).0, SkipSpaces(MatchFraction(t).1))
  {
    var d := DropSign(u);
    var n := N.DigitRun(d);
    t := d[n..];
    assert d == d[..n] + t;
    assert u == (if m.negative then "-" else "") + d;
  }

  /** Sign, digits, fraction and the rest of what follows `#EXTINF:`. */
  lemma NumberIs(u: string, m: ExtInf) returns (spaces: string)
    requires MatchNumber(u) == Some(m)
    ensures u == (if m.negative then "-" else "")
                 + (m.whole + ((if m.fraction == "" then "" else "." + m.fraction) + (spaces + m.rest)))
    ensures m.whole != "" && AllDigits(m.whole) && AllDigits(m.fraction) && OnlySpaces(spaces)
    ensures !GoesOnWithDigits(spaces + m.rest) && (m.fraction == "" ==> !GoesOnWithFraction(spaces + m.rest))
    ensures m.rest != "" ==> m.rest[0] !in SPACES
  {
    var t := DigitsIs(u, m);
    spaces := TailIs(t);
    assert MatchFraction(t).1 == spaces + m.rest;
  }

  lemma NumberIsMatch(u: string, m: ExtInf)
    requires MatchNumber(u) == Some(m)
    ensures Matches("#EXTINF:" + u, m)
  {
    var spaces := NumberIs(u, m);
    Pieces("#EXTINF:", if m.negative then "-" else "", m.whole, if m.fraction == "" then "" else "." + m.fraction,
           spaces, m.rest);
    assert IsMatch("#EXTINF:" + u, m, spaces);
  }

  lemma NumberTaken(u: string, m: ExtInf, spaces: string)
    requires u == (if m.negative then "-" else "")
                  + (m.whole + ((if m.fraction == "" then "" else "." + m.fraction) + (spaces + m.rest)))
    requires IsMatch("#EXTINF:" + u, m, spaces)
    ensures MatchNumber(u) == Some(m)
  {
    var after := spaces + m.rest;
    var t := (if m.fraction == "" then "" else "." + m.fraction) + after;
    assert u == if m.negative then "-" + (m.whole + t) else m.whole + t;
    assert m.fraction == "" ==> t == after;
    assert t != "" ==> !N.IsDigit(t[0]);
    RunOf(m.whole, t);
    FractionTaken(m.fraction, after);
    if m.rest != "" {
      SpaceIs(m.rest[0]);
    }
    SpacesSkipped(spaces, m.rest);
    assert DropSign(u) == m.whole + t;
  }

  lemma MatchIs(s: string, m: ExtInf)
    ensures MatchExtInf(s) == Some(m) <==> Matches(s, m)
  {
    if MatchExtInf(s) == Some(m) {
      assert s == EXTINF + s[|EXTINF|..];
      NumberIsMatch(s[|EXTINF|..], m);
    }
    if Matches(s, m) {
      var spaces :| IsMatch(s, m, spaces);
      var u := (if m.negative then "-" else "")
               + (m.whole + ((if m.fraction == "" then "" else "." + m.fraction) + (spaces + m.rest)));
      Pieces("#EXTINF:", if m.negative then "-" else "", m.whole,
             if m.fraction == "" then "" else "." + m.fraction, spaces, m.rest);
      assert s == "#EXTINF:" + u;
      assert s[|EXTINF|..] == u;
      NumberTaken(u, m, spaces);
    }
  }

  /** Of the texts that `fits` calls matches, `m` is the one that starts first in `s`. */
  ghost predicate IsFirst(fits: (string, ExtInf) -> bool, s: string, m: ExtInf) {
    exists at | 0 <= at <= |s| ::
      fits(s[at..], m) && forall before, other | 0 <= before < at :: !fits(s[before..], other)
  }

  /** `find` tries `first` at every position in turn. */
  ghost predicate TriesInTurn(first: string -> Option<ExtInf>, find: string -> Option<ExtInf>) {
    forall t :: find(t) == if first(t).Some? then first(t) else if t == "" then None else find(t[1..])
  }

  lemma {:induction false} FirstFrom(fits: (string, ExtInf) -> bool, first: string -> Option<ExtInf>,
                                     find: string -> Option<ExtInf>, s: string, at: nat)
    requires TriesInTurn(first, find) && forall t, m :: fits(t, m) <==> first(t) == Some(m)
    requires at <= |s| && forall before, other | 0 <= before < at :: !fits(s[before..], other)
    ensures match find(s[at..])
            case None => forall any, other | 0 <= any <= |s| :: !fits(s[any..], other)
            case Some(m) => IsFirst(fits, s, m)
    decreases |s| - at
  {
    var found := first(s[at..]);
    if found.Some? {
      assert fits(s[at..], found.value);
    } else if at < |s| {
      assert s[at..][1..] == s[at + 1..];
      FirstFrom(fits, first, find, s, at + 1);
    }
  }

  ghost function MatchRelation(): (string, ExtInf) -> bool {
    (t: string, m: ExtInf) => Matches(t, m)
  }

  /** The groups the expression captures from any line, or no match anywhere in it. */
  lemma ExtInfFoundIs(s: string)
    ensures match FindExtInf(s)
            case None => forall at, m | 0 <= at <= |s| :: !Matches(s[at..], m)
            case Some(m) => IsFirst(MatchRelation(), s, m)
  {
    forall t, m ensures MatchRelation()(t, m) <==> MatchExtInf(t) == Some(m) {
      MatchIs(t, m);
    }
    assert s[0..] == s;
    FirstFrom(MatchRelation(), MatchExtInf, FindExtInf, s, 0);
    if FindExtInf(s).None? {
      forall at, m | 0 <= at <= |s| ensures !Matches(s[at..], m) {
        assert !MatchRelation()(s[at..], m);
      }
    }
  }

  // ---------- attrRegex ----------

  /** A key and a quoted value stand at position `at`. */
  ghost predicate IsPairAt(s: string, at: nat, key: string, value: string) {
    && at <= |s| && key + "=\"" + value + "\"" <= s[at..]
    && key != "" && (forall c | c in key :: IsKeyChar(c)) && '"' !in value
  }

  lemma Quoted(t: string, n: nat, v: nat)
    requires n + v + 3 <= |t| && "=\"" <= t[n..] && t[n + 2..][v] == '"'
    ensures t[..n] + "=\"" + t[n + 2..n + 2 + v] + "\"" <= t
  {
    assert t[n..][0] == '=' && t[n..][1] == '"';
  }

  lemma AttrText(t: string)
    requires MatchAttr(t).Some?
    ensures var a := MatchAttr(t).value;
      a.key + "=\"" + a.value + "\"" <= t && a.end == |a.key| + |a.value| + 3
  {
    var n := KeyRun(t);
    var u := t[n + 2..];
    var v := IndexOf(u, '"');
    IndexOfIsFirst(u, '"');
    Quoted(t, n, v);
  }

  lemma AttrChars(t: string)
    requires MatchAttr(t).Some?
    ensures var a := MatchAttr(t).value; a.key != "" && (forall c | c in a.key :: IsKeyChar(c)) && '"' !in a.value
  {
    var n := KeyRun(t);
    KeyRunIsMaximal(t);
    var u := t[n + 2..];
    IndexOfIsFirst(u, '"');
    assert u[..IndexOf(u, '"')] == t[n + 2..n + 2 + IndexOf(u, '"')];
  }

  lemma AttrIsPair(s: string, at: nat)
    requires at <= |s| && MatchAttr(s[at..]).Some?
    ensures var a := MatchAttr(s[at..]).value;
      IsPairAt(s, at, a.key, a.value) && a.end == |a.key| + |a.value| + 3
  {
    AttrText(s[at..]);
    AttrChars(s[at..]);
  }

  lemma PairIsAttr(s: string, at: nat, key: string, value: string)
    requires IsPairAt(s, at, key, value)
    ensures MatchAttr(s[at..]) == Some(AttrOf(key, value))
  {
    var t := s[at..];
    var rest := t[|key| + |value| + 3..];
    assert t == Pair(key, value) + rest;
    PairParts(key, value, rest);
    assert forall i | 0 <= i < |key| :: key[i] in key;
    KeyBefore(t, key);
    QuoteAfter(value, rest);
  }

  /** Nothing starts a pair from `a` up to `b`. */
  ghost predicate NoPairIn(s: string, a: nat, b: nat) {
    forall at, key, value | a <= at < b :: !IsPairAt(s, at, key, value)
  }

  /** Where pair `i` starts; behind the last one, the end of the text. */
  function StartOf(s: string, found: seq<Attr>, starts: seq<nat>, i: nat): nat
    requires i <= |starts| == |found|
  {
    if i == |starts| then |s| else starts[i]
  }

  /** Where pair `i - 1` ends; before the first one, position `from`. */
  function EndOf(found: seq<Attr>, starts: seq<nat>, from: nat, i: nat): nat
    requires i <= |starts| == |found|
  {
    if i == 0 then from else starts[i - 1] + found[i - 1].end
  }

  /** `found` are the pairs at `starts`, leftmost first and without overlap: none starts in between. */
  ghost predicate AreFound(s: string, from: nat, found: seq<Attr>, starts: seq<nat>) {
    && |starts| == |found|
    && (forall i | 0 <= i < |found| ::
          && IsPairAt(s, starts[i], found[i].key, found[i].value)
          && found[i].end == |found[i].key| + |found[i].value| + 3)
    && forall i | 0 <= i <= |found| ::
         && EndOf(found, starts, from, i) <= StartOf(s, found, starts, i)
         && NoPairIn(s, EndOf(found, starts, from, i), StartOf(s, found, starts, i))
  }

  lemma FoundCons(s: string, from: nat, a: Attr, found: seq<Attr>, starts: seq<nat>)
    requires AreFound(s, from + a.end, found, starts)
    requires IsPairAt(s, from, a.key, a.value) && a.end == |a.key| + |a.value| + 3
    ensures AreFound(s, from, [a] + found, [from] + starts)
  {
    var f, st := [a] + found, [from] + starts;
    forall i | 0 <= i <= |f|
      ensures EndOf(f, st, from, i) <= StartOf(s, f, st, i)
      ensures NoPairIn(s, EndOf(f, st, from, i), StartOf(s, f, st, i))
    {
      if i > 0 {
        assert EndOf(f, st, from, i) == EndOf(found, starts, from + a.end, i - 1);
        assert StartOf(s, f, st, i) == StartOf(s, found, starts, i - 1);
      }
    }
  }

  lemma FoundLater(s: string, from: nat, found: seq<Attr>, starts: seq<nat>)
    requires AreFound(s, from + 1, found, starts) && forall key, value :: !IsPairAt(s, from, key, value)
    ensures AreFound(s, from, found, starts)
  {
    forall i | 0 <= i <= |found|
      ensures EndOf(found, starts, from, i) <= StartOf(s, found, starts, i)
      ensures NoPairIn(s, EndOf(found, starts, from, i), StartOf(s, found, starts, i))
    {
      assert i > 0 ==> EndOf(found, starts, from, i) == EndOf(found, starts, from + 1, i);
      assert NoPairIn(s, EndOf(found, starts, from + 1, i), StartOf(s, found, starts, i));
    }
  }

  lemma {:induction false} AttrsFrom(s: string, from: nat) returns (starts: seq<nat>)
    requires from <= |s|
    ensures AreFound(s, from, FindAttrs(s[from..]), starts)
    decreases |s| - from
  {
    var t := s[from..];
    if t == "" {
      starts := [];
    } else if MatchAttr(t).Some? {
      var a := MatchAttr(t).value;
      AttrIsPair(s, from);
      assert t[a.end..] == s[from + a.end..];
      var more := AttrsFrom(s, from + a.end);
      FoundCons(s, from, a, FindAttrs(t[a.end..]), more);
      starts := [from] + more;
    } else {
      assert t[1..] == s[from + 1..];
      starts := AttrsFrom(s, from + 1);
      forall key, value ensures !IsPairAt(s, from, key, value) {
        if IsPairAt(s, from, key, value) {
          PairIsAttr(s, from, key, value);
        }
      }
      FoundLater(s, from, FindAttrs(t[1..]), starts);
    }
  }

  ghost predicate IsLast(found: seq<Attr>, key: string, value: string) {
    exists i | 0 <= i < |found| ::
      && found[i].key == key && found[i].value == value
      && forall j | i < j < |found| :: found[j].key != key
  }

  /** A later pair with the same key wins. */
  lemma {:induction false} LastPairWins(found: seq<Attr>, key: string, value: string)
    ensures key in AttrMap(found) && AttrMap(found)[key] == value <==> IsLast(found, key, value)
  {
    if found != [] {
      var n := |found| - 1;
      LastPairWins(found[..n], key, value);
    }
  }

  // ---------- The track an EXTINF line begins ----------

  lemma {:induction false} AfterLastIs(s: string, c: char)
    ensures match AfterLast(s, c)
            case None => c !in s
            case Some(t) => c in s && c !in t && exists before :: s == before + [c] + t
  {
    if s != "" && s[|s| - 1] == c {
      assert s == s[..|s| - 1] + [c] + "";
    } else if s != "" {
      var n := |s| - 1;
      AfterLastIs(s[..n], c);
      assert s == s[..n] + [s[n]];
      if AfterLast(s[..n], c).Some? {
        var t := AfterLast(s[..n], c).value;
        var before :| s[..n] == before + [c] + t;
        assert s == before + [c] + (t + [s[n]]);
      }
    }
  }

  lemma {:induction false} StrippedIs(s: string) returns (zeros: string)
    ensures s == StripZeros(s) + zeros && forall c | c in zeros :: c == '0'
    ensures StripZeros(s) != "" ==> StripZeros(s)[|StripZeros(s)| - 1] != '0'
  {
    zeros := "";
    if s != "" && s[|s| - 1] == '0' {
      var n := |s| - 1;
      var more := StrippedIs(s[..n]);
      zeros := more + "0";
      assert s == s[..n] + "0";
    }
  }

  /** The number the groups spell, without zeros at the end of the fraction. */
  ghost predicate IsLength(m: ExtInf, d: Decimal) {
    && d.negative == m.negative && AllDigits(m.whole) && d.whole == N.Decimal(m.whole)
    && (d.fraction != "" ==> d.fraction[|d.fraction| - 1] != '0')
    && exists zeros :: m.fraction == d.fraction + zeros && forall c | c in zeros :: c == '0'
  }

  /** Each key has the value of its last pair. */
  ghost predicate AreLast(found: seq<Attr>, attrs: map<string, string>) {
    forall key, value {:trigger IsLast(found, key, value)} ::
      key in attrs && attrs[key] == value <==> IsLast(found, key, value)
  }

  /** The text behind the last comma; without a comma all of it, unless there are attributes. */
  ghost predicate IsName(rest: string, hasAttrs: bool, name: string) {
    if ',' in rest then exists before, title :: rest == before + "," + title && ',' !in title && IsTrimOf(title, name)
    else if hasAttrs then name == ""
    else IsTrimOf(rest, name)
  }

  ghost predicate IsTrackOf(m: ExtInf, t: Track) {
    && t.uri == None && t.tags == map[] && IsLength(m, t.length)
    && exists found, starts {:trigger AreFound(m.rest, 0, found, starts)} ::
         AreFound(m.rest, 0, found, starts) && AreLast(found, t.attrs) && IsName(m.rest, found != [], t.name)
  }

  lemma LengthIs(m: ExtInf)
    requires AllDigits(m.whole)
    ensures IsLength(m, ParseLength(m))
  {
    var zeros := StrippedIs(m.fraction);
  }

  lemma NameIs(rest: string, hasAttrs: bool)
    ensures IsName(rest, hasAttrs,
                   match AfterLast(rest, ',')
                   case Some(title) => Trim(title)
                   case None => if !hasAttrs then Trim(rest) else "")
  {
    AfterLastIs(rest, ',');
    TrimIs(rest);
    if AfterLast(rest, ',').Some? {
      TrimIs(AfterLast(rest, ',').value);
    }
  }

  lemma PairsAre(rest: string)
    ensures AreLast(FindAttrs(rest), AttrMap(FindAttrs(rest)))
    ensures exists starts :: AreFound(rest, 0, FindAttrs(rest), starts)
  {
    var found := FindAttrs(rest);
    forall key, value {:trigger IsLast(found, key, value)}
      ensures key in AttrMap(found) && AttrMap(found)[key] == value <==> IsLast(found, key, value)
    {
      LastPairWins(found, key, value);
    }
    assert rest[0..] == rest;
    var starts := AttrsFrom(rest, 0);
  }

  lemma TrackIs(line: string, m: ExtInf)
    requires FindExtInf(line) == Some(m)
    ensures ParseExtInf(line).Some? && IsTrackOf(m, ParseExtInf(line).value)
  {
    FindExtInfDigits(line);
    LengthIs(m);
    PairsAre(m.rest);
    NameIs(m.rest, FindAttrs(m.rest) != []);
  }

  /** What any EXTINF line means: it is damaged when nothing in it matches. */
  lemma InfoIs(line: string)
    ensures match ParseExtInf(line)
            case None => forall at, m | 0 <= at <= |line| :: !Matches(line[at..], m)
            case Some(t) => exists m :: IsFirst(MatchRelation(), line, m) && IsTrackOf(m, t)
  {
    ExtInfFoundIs(line);
    if FindExtInf(line).Some? {
      TrackIs(line, FindExtInf(line).value);
    }
  }

  // ---------- The order in which the encoder prints ----------

  /** The first difference between `a` and `b` is at `n`, and `a` has the smaller byte or ends there. */
  predicate DiffersAt(a: string, b: string, n: nat)
    requires n <= |a| && n <= |b|
  {
    (forall i | 0 <= i < n :: a[i] == b[i])
    && ((n == |a| && n < |b|) || (n < |a| && n < |b| && a[n] < b[n]))
  }

  predicate ComesBefore(a: string, b: string) {
    exists n | 0 <= n <= |a| && n <= |b| :: DiffersAt(a, b, n)
  }

  lemma StringLessIs(a: string, b: string)
    ensures StringLess(a, b) <==> ComesBefore(a, b)
  {
    N.KeyLessIs(Bytes(a), Bytes(b));
    forall n | 0 <= n <= |a| && n <= |b| ensures DiffersAt(a, b, n) <==> N.DecidedAt(Bytes(a), Bytes(b), n) {
      assert forall i | 0 <= i < n :: Bytes(a)[i] == N.Byte(a[i]) && Bytes(b)[i] == N.Byte(b[i]);
    }
  }

  /** Attributes are printed in the order of their pairs. */
  lemma PairsInOrder(attrs: map<string, string>, keys: seq<string>, i: nat, j: nat)
    requires IsListing(keys, attrs, PairLess(attrs)) && i < j < |keys|
    ensures keys[i] in attrs && keys[j] in attrs
    ensures var a, b := Pair(keys[i], attrs[keys[i]]), Pair(keys[j], attrs[keys[j]]); a == b || ComesBefore(a, b)
  {
    assert keys[i] in attrs && keys[j] in attrs;
    var a, b := Pair(keys[i], attrs[keys[i]]), Pair(keys[j], attrs[keys[j]]);
    assert !PairLess(attrs)(keys[j], keys[i]);
    StringLessIsStrictTotal(a, b, "");
    StringLessIs(a, b);
  }

  /** Tags are printed in the order of their keys. */
  lemma TagsInOrder(tags: map<string, string>, keys: seq<string>, i: nat, j: nat)
    requires IsListing(keys, tags, KeyOrder()) && i < j < |keys|
    ensures keys[i] in tags && keys[j] in tags && ComesBefore(keys[i], keys[j])
  {
    assert keys[i] in tags && keys[j] in tags;
    assert !KeyOrder()(keys[j], keys[i]);
    StringLessIsStrictTotal(keys[i], keys[j], "");
    StringLessIs(keys[i], keys[j]);
  }
}

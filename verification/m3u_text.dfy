/**
 The string functions of the Go standard library that the M3U parser uses, on Unicode text.
 */
module M3uText {
  import opened Basics
  import N = NaturalOrder

  /** `unicode.IsSpace`. */
  predicate IsSpace(c: char) {
    c in {'\t', '\n', '\U{000B}', '\U{000C}', '\r', ' ', '\U{0085}', '\U{00A0}', '\U{1680}',
          '\U{2028}', '\U{2029}', '\U{202F}', '\U{205F}', '\U{3000}'}
    || '\U{2000}' <= c <= '\U{200A}'
  }

  function TrimLeft(s: string): string {
    if s != "" && IsSpace(s[0]) then TrimLeft(s[1..]) else s
  }

  function TrimRight(s: string): string {
    if s != "" && IsSpace(s[|s| - 1]) then TrimRight(s[..|s| - 1]) else s
  }

  /** `strings.TrimSpace`. */
  function Trim(s: string): string {
    TrimRight(TrimLeft(s))
  }

  /** Neither end is a space, so trimming changes nothing. */
  predicate Trimmed(s: string) {
    s != "" ==> !IsSpace(s[0]) && !IsSpace(s[|s| - 1])
  }

  lemma TrimmedIsTrim(s: string)
    requires Trimmed(s)
    ensures Trim(s) == s
  {
  }

  function DropReturn(s: string): string {
    if s != "" && s[|s| - 1] == '\r' then s[..|s| - 1] else s
  }

  /** Position of the first `c`, or the length. */
  function IndexOf(s: string, c: char): (i: nat)
    ensures i <= |s|
  {
    if s == "" || s[0] == c then 0 else 1 + IndexOf(s[1..], c)
  }

  /** The tokens of `bufio.ScanLines`. */
  function Lines(text: string): seq<string>
    decreases |text|
  {
    if text == "" then []
    else
      var i := IndexOf(text, '\n');
      if i == |text| then [DropReturn(text)] else [DropReturn(text[..i])] + Lines(text[i + 1..])
  }

  /** A line that survives being written with a newline and scanned again. */
  predicate CleanLine(s: string) {
    '\n' !in s && s != "" && s[|s| - 1] != '\r'
  }

  lemma {:induction false} IndexOfIsFirst(s: string, c: char)
    ensures IndexOf(s, c) < |s| ==> s[IndexOf(s, c)] == c
    ensures forall j | 0 <= j < IndexOf(s, c) :: s[j] != c
  {
    if s != "" && s[0] != c {
      IndexOfIsFirst(s[1..], c);
    }
  }

  lemma IndexOfFirst(s: string, c: char, i: nat)
    requires i <= |s| && c !in s[..i] && (i < |s| ==> s[i] == c)
    ensures IndexOf(s, c) == i
  {
    IndexOfIsFirst(s, c);
    assert forall j | 0 <= j < i :: s[j] in s[..i];
  }

  lemma LinesCons(line: string, rest: string)
    requires CleanLine(line)
    ensures Lines(line + "\n" + rest) == [line] + Lines(rest)
  {
    var text := line + "\n" + rest;
    assert text[..|line|] == line && text[|line|] == '\n' && text[|line| + 1..] == rest;
    IndexOfFirst(text, '\n', |line|);
  }

  /** Everything after the last `c`, if there is one. */
  function AfterLast(s: string, c: char): Option<string> {
    if s == "" then None
    else if s[|s| - 1] == c then Some("")
    else match AfterLast(s[..|s| - 1], c)
         case None => None
         case Some(t) => Some(t + [s[|s| - 1]])
  }

  lemma {:induction false} AfterLastSplits(s: string, t: string, c: char)
    requires c !in t
    ensures AfterLast(s + [c] + t, c) == Some(t)
  {
    var whole := s + [c] + t;
    if t == "" {
      assert whole[|whole| - 1] == c;
    } else {
      var n := |t| - 1;
      assert whole[..|whole| - 1] == s + [c] + t[..n];
      AfterLastSplits(s, t[..n], c);
      assert t == t[..n] + [t[n]];
    }
  }

  lemma {:induction false} AfterLastNone(s: string, c: char)
    requires c !in s
    ensures AfterLast(s, c) == None
  {
    if s != "" {
      AfterLastNone(s[..|s| - 1], c);
    }
  }

  lemma {:induction false} AfterLastEnds(s: string, c: char)
    requires c in s && s[|s| - 1] != c
    ensures var t := AfterLast(s, c); t.Some? && t.value != "" && t.value[|t.value| - 1] == s[|s| - 1]
  {
    var n := |s| - 1;
    assert s == s[..n] + [s[n]];
    assert s[..n] != "";
    if s[n - 1] != c {
      AfterLastEnds(s[..n], c);
    }
  }

  lemma {:induction false} TrimKeepsInk(s: string)
    requires s != "" && !IsSpace(s[|s| - 1])
    ensures Trim(s) != ""
  {
    if IsSpace(s[0]) {
      TrimKeepsInk(s[1..]);
    }
  }

  // ---------- Byte order of strings ----------

  function Bytes(s: string): seq<N.Token> {
    seq(|s|, i requires 0 <= i < |s| => N.Byte(s[i]))
  }

  /** The order of `sort.Strings`. */
  predicate StringLess(a: string, b: string) {
    N.KeyLess(Bytes(a), Bytes(b))
  }

  lemma StringLessIsStrictTotal(a: string, b: string, c: string)
    ensures !StringLess(a, a)
    ensures StringLess(a, b) && StringLess(b, c) ==> StringLess(a, c)
    ensures StringLess(a, c) ==> StringLess(a, b) || StringLess(b, c)
    ensures a == b || StringLess(a, b) || StringLess(b, a)
  {
    var x, y, z := Bytes(a), Bytes(b), Bytes(c);
    N.KeyTrichotomy(x, x);
    N.KeyTrichotomy(x, y);
    N.KeyTrichotomy(y, z);
    N.KeyTrichotomy(x, z);
    if x == y {
      assert forall i | 0 <= i < |a| :: x[i] == N.Byte(a[i]) && y[i] == N.Byte(b[i]);
      assert |a| == |x| == |y| == |b|;
      assert a == b;
    }
    if StringLess(a, b) && StringLess(b, c) {
      N.KeyTransitive(x, y, z);
    }
    if StringLess(a, c) && StringLess(c, b) {
      N.KeyTransitive(x, z, y);
    }
  }

  // ---------- Decimal numbers ----------

  predicate AllDigits(s: string) {
    forall i | 0 <= i < |s| :: N.IsDigit(s[i])
  }

  /** Decimal notation of a natural number. */
  function Digits(n: nat): (s: string)
    ensures s != "" && AllDigits(s)
  {
    if n < 10 then [DigitChar(n)] else Digits(n / 10) + [DigitChar(n % 10)]
  }

  function DigitChar(d: nat): (c: char)
    requires d < 10
    ensures N.IsDigit(c) && N.DigitValue(c) == d
  {
    ('0' as int + d) as char
  }

  lemma {:induction false} DigitsValue(n: nat)
    ensures N.Decimal(Digits(n)) == n
  {
    var s := Digits(n);
    if n >= 10 {
      DigitsValue(n / 10);
      assert s[..|s| - 1] == Digits(n / 10);
    } else {
      assert s[..0] == "";
    }
  }

  /** A run of digits followed by something else is scanned exactly. */
  lemma RunOf(digits: string, rest: string)
    requires AllDigits(digits) && (rest != "" ==> !N.IsDigit(rest[0]))
    ensures N.DigitRun(digits + rest) == |digits|
  {
    var s := digits + rest;
    assert forall i | 0 <= i < |digits| :: s[i] == digits[i];
    N.DigitRunIsMaximal(s, |digits|);
  }
}

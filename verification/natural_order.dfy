/**
 Natural comparison of names (internal/listing/m3u8/rules/playlist/sort_natural.go).
 A `char` stands for one byte of a Go string. The loop of `naturalLess` is proved
 equal to the lexicographic order of token keys, which is a strict weak order.
 */
module NaturalOrder {
  const MAX_INT64: nat := 0x7FFF_FFFF_FFFF_FFFF

  /** `unicode.IsDigit` of a single byte: the decimal digits of Latin-1 are the ASCII ones. */
  predicate IsDigit(c: char) {
    '0' <= c <= '9'
  }

  /** A maximal run of digits, read as a number, or one other byte. */
  datatype Token = Number(value: nat) | Byte(byte: char)

  /** Length of the run of digits at the start of `s`. */
  function DigitRun(s: string): (n: nat)
    ensures n <= |s|
    ensures forall i | 0 <= i < n :: IsDigit(s[i])
    ensures n < |s| ==> !IsDigit(s[n])
  {
    if s == "" || !IsDigit(s[0]) then 0 else 1 + DigitRun(s[1..])
  }

  function DigitValue(c: char): nat
    requires IsDigit(c)
  {
    c as int - '0' as int
  }

  function Decimal(digits: string): nat
    requires forall i | 0 <= i < |digits| :: IsDigit(digits[i])
  {
    if digits == "" then 0
    else Decimal(digits[..|digits| - 1]) * 10 + DigitValue(digits[|digits| - 1])
  }

  /** `strconv.ParseInt(digits, 10, 64)`, with the zero that stands for a range error. */
  function ParseInt64(digits: string): nat
    requires forall i | 0 <= i < |digits| :: IsDigit(digits[i])
  {
    if Decimal(digits) > MAX_INT64 then 0 else Decimal(digits)
  }

  function Key(s: string): seq<Token>
    decreases |s|
  {
    if s == "" then []
    else if IsDigit(s[0]) then
      var n := DigitRun(s);
      [Number(ParseInt64(s[..n]))] + Key(s[n..])
    else [Byte(s[0])] + Key(s[1..])
  }

  /** Numbers by value, then other bytes by code. */
  predicate TokenLess(a: Token, b: Token) {
    match (a, b)
    case (Number(v), Number(w)) => v < w
    case (Number(_), Byte(_)) => true
    case (Byte(_), Number(_)) => false
    case (Byte(x), Byte(y)) => x < y
  }

  /** Lexicographic order: a proper prefix comes first. */
  predicate KeyLess(a: seq<Token>, b: seq<Token>) {
    if b == [] then false
    else if a == [] then true
    else if a[0] != b[0] then TokenLess(a[0], b[0])
    else KeyLess(a[1..], b[1..])
  }

  predicate Less(a: string, b: string) {
    KeyLess(Key(a), Key(b))
  }

  method ExtractNumber(s: string) returns (num: nat, n: nat)
    ensures n == DigitRun(s) && num == ParseInt64(s[..n])
  {
    n := 0;
    while n < |s| && IsDigit(s[n])
      invariant n <= |s|
      invariant forall i | 0 <= i < n :: IsDigit(s[i])
    {
      n := n + 1;
    }
    DigitRunIsMaximal(s, n);
    num := ParseInt64(s[..n]);
  }

  method NaturalLess(a: string, b: string) returns (less: bool)
    ensures less <==> Less(a, b)
  {
    var x, y := a, b;
    while true
      invariant KeyLess(Key(x), Key(y)) <==> Less(a, b)
      decreases |x| + |y|
    {
      if |x| == 0 && |y| == 0 {
        return false;
      }
      if |x| == 0 {
        return true;
      }
      if |y| == 0 {
        return false;
      }
      var xIsDigit, yIsDigit := IsDigit(x[0]), IsDigit(y[0]);
      if xIsDigit && yIsDigit {
        var xNum, xLen := ExtractNumber(x);
        var yNum, yLen := ExtractNumber(y);
        if xNum != yNum {
          return xNum < yNum;
        }
        x, y := x[xLen..], y[yLen..];
      } else if xIsDigit {
        return true;
      } else if yIsDigit {
        return false;
      } else {
        if x[0] != y[0] {
          return x[0] < y[0];
        }
        x, y := x[1..], y[1..];
      }
    }
  }

  lemma {:induction false} DigitRunIsMaximal(s: string, n: nat)
    requires n <= |s| && (forall i | 0 <= i < n :: IsDigit(s[i])) && (n < |s| ==> !IsDigit(s[n]))
    ensures DigitRun(s) == n
  {
    if n > 0 {
      DigitRunIsMaximal(s[1..], n - 1);
    }
  }

  // ---------- The order ----------

  /** Of two keys exactly one of three holds: the first is less, the second is less, or they are equal. */
  lemma {:induction false} KeyTrichotomy(a: seq<Token>, b: seq<Token>)
    ensures KeyLess(a, b) || KeyLess(b, a) <==> a != b
    ensures !(KeyLess(a, b) && KeyLess(b, a))
  {
    if a != [] && b != [] && a[0] == b[0] {
      KeyTrichotomy(a[1..], b[1..]);
      assert a == [a[0]] + a[1..] && b == [b[0]] + b[1..];
    }
  }

  lemma {:induction false} KeyTransitive(a: seq<Token>, b: seq<Token>, c: seq<Token>)
    requires KeyLess(a, b) && KeyLess(b, c)
    ensures KeyLess(a, c)
  {
    if a != [] && b != [] && c != [] && a[0] == b[0] == c[0] {
      KeyTransitive(a[1..], b[1..], c[1..]);
    }
  }

  // ---------- What a key is ----------

  /** The token of the text from `a` up to `b`: a run of digits that ends there, or one other byte. */
  predicate IsTokenOf(s: string, a: nat, b: nat, token: Token)
    requires a < b <= |s|
  {
    match token
    case Number(value) =>
      && (forall i | a <= i < b :: IsDigit(s[i])) && (b < |s| ==> !IsDigit(s[b]))
      && (forall i | 0 <= i < |s[a..b]| :: IsDigit(s[a..b][i]))
      && value == if Decimal(s[a..b]) > MAX_INT64 then 0 else Decimal(s[a..b])
    case Byte(byte) => b == a + 1 && s[a] == byte && !IsDigit(byte)
  }

  /** Token `i` stands for the text between the cuts `i` and `i + 1`. */
  predicate IsPiece(s: string, key: seq<Token>, cuts: seq<nat>, i: nat)
    requires i < |key| == |cuts| - 1
  {
    cuts[i] < cuts[i + 1] <= |s| && IsTokenOf(s, cuts[i], cuts[i + 1], key[i])
  }

  /** `cuts` cut the text from `from` on into the pieces the tokens stand for. */
  ghost predicate Spells(s: string, from: nat, key: seq<Token>, cuts: seq<nat>) {
    && |cuts| == |key| + 1 && cuts[0] == from && cuts[|key|] == |s|
    && forall i | 0 <= i < |key| :: IsPiece(s, key, cuts, i)
  }

  lemma SpellsCons(s: string, from: nat, next: nat, token: Token, key: seq<Token>, cuts: seq<nat>)
    requires from < next <= |s| && IsTokenOf(s, from, next, token) && Spells(s, next, key, cuts)
    ensures Spells(s, from, [token] + key, [from] + cuts)
  {
    forall i | 0 <= i < |key| + 1 ensures IsPiece(s, [token] + key, [from] + cuts, i) {
      assert i > 0 ==> IsPiece(s, key, cuts, i - 1);
    }
  }

  lemma {:induction false} KeySpells(s: string, from: nat) returns (cuts: seq<nat>)
    requires from <= |s|
    ensures Spells(s, from, Key(s[from..]), cuts)
    decreases |s| - from
  {
    if from == |s| {
      cuts := [from];
    } else {
      var token, next := FirstToken(s, from);
      var more := KeySpells(s, next);
      SpellsCons(s, from, next, token, Key(s[next..]), more);
      cuts := [from] + more;
    }
  }

  lemma FirstToken(s: string, from: nat) returns (token: Token, next: nat)
    requires from < |s|
    ensures from < next <= |s| && IsTokenOf(s, from, next, token)
    ensures Key(s[from..]) == [token] + Key(s[next..])
  {
    var t := s[from..];
    var n := if IsDigit(t[0]) then DigitRun(t) else 1;
    assert t[..n] == s[from..from + n] && t[n..] == s[from + n..];
    assert forall i | from <= i < from + n :: s[i] == t[i - from];
    token, next := Key(t)[0], from + n;
  }

  /** The key of a name stands for the whole of it, piece by piece. */
  lemma KeyIs(s: string)
    ensures exists cuts :: Spells(s, 0, Key(s), cuts)
  {
    assert s[0..] == s;
    var cuts := KeySpells(s, 0);
  }

  /** `x` comes before `y`: numbers by value and before anything else, other bytes by code. */
  predicate ComesFirst(x: Token, y: Token) {
    || (x.Number? && (y.Number? ==> x.value < y.value))
    || (x.Byte? && y.Byte? && x.byte < y.byte)
  }

  /** The first difference decides, and without one the length. */
  predicate DecidedAt(a: seq<Token>, b: seq<Token>, n: nat)
    requires n <= |a| && n <= |b|
  {
    (forall i | 0 <= i < n :: a[i] == b[i])
    && ((n == |a| && n < |b|) || (n < |a| && n < |b| && ComesFirst(a[n], b[n])))
  }

  lemma {:induction false} KeyLessIs(a: seq<Token>, b: seq<Token>)
    ensures KeyLess(a, b) <==> exists n | 0 <= n <= |a| && n <= |b| :: DecidedAt(a, b, n)
  {
    if a != [] && b != [] && a[0] == b[0] {
      KeyLessIs(a[1..], b[1..]);
      if KeyLess(a, b) {
        var n :| 0 <= n <= |a[1..]| && n <= |b[1..]| && DecidedAt(a[1..], b[1..], n);
        assert forall i | 0 < i <= n :: a[i] == a[1..][i - 1] && b[i] == b[1..][i - 1];
        assert DecidedAt(a, b, n + 1);
      }
      if n :| 0 <= n <= |a| && n <= |b| && DecidedAt(a, b, n) {
        assert DecidedAt(a[1..], b[1..], n - 1);
      }
    } else if KeyLess(a, b) {
      assert DecidedAt(a, b, 0);
    }
  }

  /**
   `naturalLess` is a strict weak order whose ties are exactly the names with equal keys.
   */
  lemma NaturalIsStrictWeak(a: string, b: string, c: string)
    ensures !Less(a, a)
    ensures !(Less(a, b) && Less(b, a))
    ensures Less(a, b) && Less(b, c) ==> Less(a, c)
    ensures !Less(a, b) && !Less(b, a) <==> Key(a) == Key(b)
    ensures Less(a, c) ==> Less(a, b) || Less(b, c)
  {
    KeyTrichotomy(Key(a), Key(a));
    KeyTrichotomy(Key(a), Key(b));
    KeyTrichotomy(Key(b), Key(c));
    KeyTrichotomy(Key(a), Key(c));
    if Less(a, b) && Less(b, c) {
      KeyTransitive(Key(a), Key(b), Key(c));
    }
    if Less(a, c) && Less(c, b) {
      KeyTransitive(Key(a), Key(c), Key(b));
    }
  }

  /** Names that tie need not be equal: leading zeros are lost. */
  lemma DifferentNamesMayTie()
    ensures "7" != "07" && Key("7") == Key("07")
  {
    DigitRunIsMaximal("7", 1);
    DigitRunIsMaximal("07", 2);
    assert "7"[..1] == "7" && "07"[..2] == "07" && "07"[..1] == "0";
    assert Decimal("7") == 7 && Decimal("0") == 0 && Decimal("07") == 7;
  }

  /** A name that is a number too large for 64 bits ties with zero, whatever number it is. */
  lemma TooLargeTiesWithZero(s: string)
    requires (forall i | 0 <= i < |s| :: IsDigit(s[i])) && Decimal(s) > MAX_INT64
    ensures Key(s) == Key("0") == [Number(0)]
    ensures !Less(s, "0") && !Less("0", s)
  {
    DigitRunIsMaximal(s, |s|);
    DigitRunIsMaximal("0", 1);
    assert s[..|s|] == s && "0"[..1] == "0" && Decimal("0") == 0;
    KeyTrichotomy(Key(s), Key("0"));
  }

  predicate IsNumber(s: string) {
    s != "" && forall i | 0 <= i < |s| :: IsDigit(s[i])
  }

  lemma NumberKey(s: string)
    requires IsNumber(s)
    ensures Key(s) == [Number(ParseInt64(s))]
  {
    DigitRunIsMaximal(s, |s|);
    assert s[..|s|] == s && s[|s|..] == "";
  }

  /**
   Two numbers stand in numeric order exactly when both fit 64 bits, or the first does not and the second
   is zero or does not either and is no larger.
   */
  lemma NumericOrderIff(a: string, b: string)
    requires IsNumber(a) && IsNumber(b)
    ensures (Less(a, b) <==> Decimal(a) < Decimal(b)) <==>
      || (Decimal(a) <= MAX_INT64 && Decimal(b) <= MAX_INT64)
      || (Decimal(a) > MAX_INT64 && (Decimal(b) == 0 || MAX_INT64 < Decimal(b) <= Decimal(a)))
  {
    NumbersCompare(a, b);
  }

  lemma NumbersCompare(a: string, b: string)
    requires IsNumber(a) && IsNumber(b)
    ensures Less(a, b) <==> ParseInt64(a) < ParseInt64(b)
  {
    NumberKey(a);
    NumberKey(b);
    SingleLess(ParseInt64(a), ParseInt64(b));
  }

  lemma SingleLess(v: nat, w: nat)
    ensures KeyLess([Number(v)], [Number(w)]) <==> v < w
  {
  }
}

/** The JavaScript string facilities the core relies on, written out:
    the `\s` character class, the ASCII range, `${n}` for integers,
    `parseInt` without a radix, `String.prototype.split` on one character,
    and `TextEncoder.encode` (UTF-8). */
module Text {
  import opened Wrappers
  import opened Seqs

  newtype byte = b: int | 0 <= b < 256

  /** The characters matched by the regular expression class `\s`:
      WhiteSpace and LineTerminator of ECMAScript. */
  predicate IsJsWhitespace(c: char) {
    var n := c as int;
    n == 0x09 || n == 0x0A || n == 0x0B || n == 0x0C || n == 0x0D || n == 0x20 ||
    n == 0xA0 || n == 0x1680 || (0x2000 <= n <= 0x200A) || n == 0x2028 ||
    n == 0x2029 || n == 0x202F || n == 0x205F || n == 0x3000 || n == 0xFEFF
  }

  predicate IsAsciiChar(c: char) { c as int < 0x80 }

  predicate IsAscii(s: string) {
    forall i :: 0 <= i < |s| ==> IsAsciiChar(s[i])
  }

  lemma AsciiAppend(a: string, b: string)
    requires IsAscii(a) && IsAscii(b)
    ensures IsAscii(a + b)
  {
  }

  /** `" ".repeat(n)` and its kin. */
  function Repeat(c: char, n: nat): (r: string)
    ensures |r| == n
    ensures forall i :: 0 <= i < n ==> r[i] == c
  {
    seq(n, _ => c)
  }

  predicate IsDigit(c: char) { '0' <= c <= '9' }

  function DigitChar(d: nat): (c: char)
    requires d < 10
    ensures IsDigit(c)
  {
    ('0' as int + d) as char
  }

  /** The decimal text of a natural number, most significant digit first. */
  function NatToString(n: nat): (s: string)
    ensures |s| >= 1
    ensures forall i :: 0 <= i < |s| ==> IsDigit(s[i])
  {
    if n < 10 then [DigitChar(n)] else NatToString(n / 10) + [DigitChar(n % 10)]
  }

  /** `${n}` for an integer-valued number n. */
  function IntToString(n: int): (s: string)
    ensures |s| >= 1 && IsAscii(s)
    ensures '\n' !in s
  {
    if n < 0 then "-" + NatToString(-n) else NatToString(n)
  }

  /** The value of a character as a digit in base 36 (36 when it is none). */
  function DigitValue(c: char): (d: nat)
    ensures d <= 36
    ensures d < 10 <==> IsDigit(c)
  {
    if '0' <= c <= '9' then c as int - '0' as int
    else if 'a' <= c <= 'z' then c as int - 'a' as int + 10
    else if 'A' <= c <= 'Z' then c as int - 'A' as int + 10
    else 36
  }

  /** The longest prefix of s made of digits of the radix. */
  function LeadingDigits(s: string, radix: nat): (r: string)
    ensures r <= s
    ensures forall i :: 0 <= i < |r| ==> DigitValue(r[i]) < radix
    ensures |r| < |s| ==> DigitValue(s[|r|]) >= radix
  {
    if s != [] && DigitValue(s[0]) < radix then [s[0]] + LeadingDigits(s[1..], radix) else []
  }

  /** The value of a digit string in the radix, most significant digit first. */
  function DigitsValue(ds: string, radix: nat): nat {
    if ds == [] then 0
    else DigitsValue(ds[..|ds| - 1], radix) * radix + DigitValue(ds[|ds| - 1])
  }

  /** Leading `\s` characters removed, as `parseInt` does first. */
  function TrimStart(s: string): (r: string)
    ensures |r| <= |s|
    ensures r != [] ==> !IsJsWhitespace(r[0])
  {
    if s != [] && IsJsWhitespace(s[0]) then TrimStart(s[1..]) else s
  }

  /** `parseInt(s)` with no radix argument: leading white space, an optional
      sign, a `0x`/`0X` prefix selecting base 16, then the longest run of
      digits; `None` stands for `NaN` when that run is empty. */
  function ParseIntJs(s: string): Option<int> {
    ParseSigned(TrimStart(s))
  }

  /** `parseInt` after the white space: the sign. */
  function ParseSigned(t: string): Option<int> {
    if t != [] && t[0] == '-' then
      match ParseUnsigned(t[1..])
      case Some(v) => Some(-v)
      case None => None
    else if t != [] && t[0] == '+' then ParseUnsigned(t[1..])
    else ParseUnsigned(t)
  }

  predicate HasHexPrefix(u: string) {
    |u| >= 2 && u[0] == '0' && (u[1] == 'x' || u[1] == 'X')
  }

  /** `parseInt` after the sign: the radix prefix and the digits. */
  function ParseUnsigned(u: string): Option<int> {
    if HasHexPrefix(u) then ParseDigits(u[2..], 16) else ParseDigits(u, 10)
  }

  /** The longest run of digits of the radix at the start of w, if any. */
  function ParseDigits(w: string, radix: nat): Option<int> {
    var ds := LeadingDigits(w, radix);
    if ds == [] then None else Some(DigitsValue(ds, radix))
  }

  lemma {:induction false} DigitsValueOfNatToString(n: nat)
    ensures DigitsValue(NatToString(n), 10) == n
  {
    var s := NatToString(n);
    if n >= 10 {
      DigitsValueOfNatToString(n / 10);
      assert s[..|s| - 1] == NatToString(n / 10);
    }
  }

  lemma {:induction false} LeadingDigitsStop(d: string, rest: string, radix: nat)
    requires forall i :: 0 <= i < |d| ==> DigitValue(d[i]) < radix
    requires rest == [] || DigitValue(rest[0]) >= radix
    ensures LeadingDigits(d + rest, radix) == d
  {
    if d != [] {
      assert (d + rest)[1..] == d[1..] + rest;
      LeadingDigitsStop(d[1..], rest, radix);
    } else {
      assert d + rest == rest;
    }
  }

  lemma DecimalNotHex(m: nat, rest: string)
    requires rest == [] || (!IsDigit(rest[0]) && rest[0] != 'x' && rest[0] != 'X')
    ensures !HasHexPrefix(NatToString(m) + rest)
  {
    var d := NatToString(m);
    var u := d + rest;
    if |d| >= 2 {
      assert u[1] == d[1] && IsDigit(d[1]);
    } else if |u| >= 2 {
      assert u[1] == rest[0];
    }
  }

  lemma ParseUnsignedDecimal(m: nat, rest: string)
    requires rest == [] || (!IsDigit(rest[0]) && rest[0] != 'x' && rest[0] != 'X')
    ensures ParseUnsigned(NatToString(m) + rest) == Some(m)
  {
    var d := NatToString(m);
    DigitsValueOfNatToString(m);
    assert forall i :: 0 <= i < |d| ==> DigitValue(d[i]) < 10;
    LeadingDigitsStop(d, rest, 10);
    DecimalNotHex(m, rest);
  }

  lemma ParseIntNegative(m: nat, rest: string)
    requires rest == [] || (!IsDigit(rest[0]) && rest[0] != 'x' && rest[0] != 'X')
    ensures ParseIntJs("-" + NatToString(m) + rest) == Some(-(m as int))
  {
    var u := NatToString(m) + rest;
    assert "-" + NatToString(m) + rest == "-" + u;
    ParseUnsignedDecimal(m, rest);
    MinusSign(u, m);
  }

  /** A leading '-' negates what follows it. */
  lemma MinusSign(u: string, v: int)
    requires ParseUnsigned(u) == Some(v)
    ensures ParseIntJs("-" + u) == Some(-v)
  {
    var t := "-" + u;
    assert t[0] == '-' && t[1..] == u;
    assert TrimStart(t) == t;
  }

  lemma ParseIntNonNegative(m: nat, rest: string)
    requires rest == [] || (!IsDigit(rest[0]) && rest[0] != 'x' && rest[0] != 'X')
    ensures ParseIntJs(NatToString(m) + rest) == Some(m)
  {
    var t := NatToString(m) + rest;
    assert t[0] == NatToString(m)[0] && IsDigit(t[0]);
    assert TrimStart(t) == t;
    ParseUnsignedDecimal(m, rest);
  }

  /** `parseInt` reads back the decimal text of a natural number. */
  lemma ParseIntOfNat(n: nat)
    ensures ParseIntJs(NatToString(n)) == Some(n)
  {
    ParseIntNonNegative(n, []);
    assert NatToString(n) + [] == NatToString(n);
  }

  /** A day or a month as `toLocaleString` writes it in a day/month/year
      locale: two digits, with a leading zero below ten. */
  function Pad2(n: nat): (s: string)
    ensures |s| >= 2
    ensures forall i :: 0 <= i < |s| ==> IsDigit(s[i])
  {
    if n < 10 then "0" + NatToString(n) else NatToString(n)
  }

  /** The leading zero adds nothing to the value. */
  lemma DigitsValueOfPad2(n: nat)
    ensures DigitsValue(Pad2(n), 10) == n
  {
    if n < 10 {
      var s := Pad2(n);
      assert s == ['0', DigitChar(n)];
      assert s[..1] == ['0'] && ['0'][..0] == [];
    } else {
      DigitsValueOfNatToString(n);
    }
  }

  lemma ParseUnsignedPad2(n: nat, rest: string)
    requires rest == [] || (!IsDigit(rest[0]) && rest[0] != 'x' && rest[0] != 'X')
    ensures ParseUnsigned(Pad2(n) + rest) == Some(n)
  {
    var d := Pad2(n);
    DigitsValueOfPad2(n);
    assert forall i :: 0 <= i < |d| ==> DigitValue(d[i]) < 10;
    LeadingDigitsStop(d, rest, 10);
    assert (d + rest)[1] == d[1] && IsDigit(d[1]);
  }

  /** Text that starts with a digit has no blank and no sign to skip. */
  lemma DigitStart(u: string)
    requires u != [] && IsDigit(u[0])
    ensures ParseIntJs(u) == ParseUnsigned(u)
  {
    assert TrimStart(u) == u;
  }

  /** `parseInt` reads back a two-digit day or month, also when other text
      that does not continue the number follows it. */
  lemma ParseIntPad2(n: nat, rest: string)
    requires rest == [] || (!IsDigit(rest[0]) && rest[0] != 'x' && rest[0] != 'X')
    ensures ParseIntJs(Pad2(n) + rest) == Some(n)
  {
    var u := Pad2(n) + rest;
    assert u[0] == Pad2(n)[0];
    ParseUnsignedPad2(n, rest);
    DigitStart(u);
  }

  lemma ParseIntOfPad2(n: nat)
    ensures ParseIntJs(Pad2(n)) == Some(n)
  {
    ParseIntPad2(n, []);
    assert Pad2(n) + [] == Pad2(n);
  }

  /** `parseInt` reads back the decimal text of an integer, also when other
      text that does not continue the number follows it. */
  lemma ParseIntOfIntToString(n: int, rest: string)
    requires rest == [] || (!IsDigit(rest[0]) && rest[0] != 'x' && rest[0] != 'X')
    ensures ParseIntJs(IntToString(n) + rest) == Some(n)
  {
    if n < 0 {
      ParseIntNegative(-n, rest);
    } else {
      ParseIntNonNegative(n, rest);
    }
  }

  /** The first position of c in s. */
  function IndexOf(s: string, c: char): (k: nat)
    requires c in s
    ensures k < |s| && s[k] == c && c !in s[..k]
  {
    if s[0] == c then 0 else 1 + IndexOf(s[1..], c)
  }

  /** The text before the first c (all of s when there is none):
      `s.split(c)[0]`. */
  function TakeUntil(s: string, c: char): (r: string)
    ensures r <= s && c !in r
  {
    if c in s then s[..IndexOf(s, c)] else s
  }

  /** `s.split(c)` for a one-character separator. */
  function Split(s: string, c: char): (parts: seq<string>)
    ensures |parts| >= 1 && parts[0] == TakeUntil(s, c)
    ensures forall i :: 0 <= i < |parts| ==> c !in parts[i]
    decreases |s|
  {
    if c in s then
      var k := IndexOf(s, c);
      [s[..k]] + Split(s[k + 1..], c)
    else [s]
  }

  /** `parts.join(c)`. */
  function Join(parts: seq<string>, c: char): string
    requires |parts| >= 1
  {
    if |parts| == 1 then parts[0] else parts[0] + [c] + Join(parts[1..], c)
  }

  /** Splitting and joining again gives back the text. */
  lemma {:induction false} JoinSplit(s: string, c: char)
    ensures Join(Split(s, c), c) == s
    decreases |s|
  {
    if c in s {
      var k := IndexOf(s, c);
      JoinSplit(s[k + 1..], c);
      assert s == s[..k] + [c] + s[k + 1..];
    }
  }

  lemma {:induction false} IndexOfPrefixed(a: string, c: char, b: string)
    requires c !in a
    ensures c in a + [c] + b && IndexOf(a + [c] + b, c) == |a|
  {
    var s := a + [c] + b;
    assert s[|a|] == c;
    if a != [] {
      assert s[1..] == a[1..] + [c] + b;
      IndexOfPrefixed(a[1..], c, b);
    }
  }

  lemma SplitPrefixed(a: string, c: char, b: string)
    requires c !in a
    ensures Split(a + [c] + b, c) == [a] + Split(b, c)
  {
    var s := a + [c] + b;
    IndexOfPrefixed(a, c, b);
    assert s[..|a|] == a && s[|a| + 1..] == b;
  }

  lemma {:induction false} TakeUntilPrefixed(a: string, c: char, b: string)
    requires c !in a
    ensures TakeUntil(a + b, c) == a + TakeUntil(b, c)
  {
    if a == [] {
      assert a + b == b;
    } else {
      var s := a + b;
      assert s[0] == a[0] && s[1..] == a[1..] + b;
      TakeUntilPrefixed(a[1..], c, b);
      assert c in s <==> c in s[1..];
      if c in s {
        assert IndexOf(s, c) == 1 + IndexOf(s[1..], c);
        assert s[..IndexOf(s, c)] == [a[0]] + s[1..][..IndexOf(s[1..], c)];
      }
    }
  }

  /** The UTF-8 encoding of one Unicode scalar value. */
  function Utf8Char(c: char): (r: seq<byte>)
    ensures 1 <= |r| <= 4
    ensures IsAsciiChar(c) <==> |r| == 1
    ensures IsAsciiChar(c) ==> r[0] as int == c as int
    ensures !IsAsciiChar(c) ==> forall i :: 0 <= i < |r| ==> r[i] >= 0x80
  {
    var n := c as int;
    if n < 0x80 then [n as byte]
    else if n < 0x800 then [(0xC0 + n / 64) as byte, (0x80 + n % 64) as byte]
    else if n < 0x10000 then
      [(0xE0 + n / 4096) as byte, (0x80 + (n / 64) % 64) as byte, (0x80 + n % 64) as byte]
    else
      [(0xF0 + n / 262144) as byte, (0x80 + (n / 4096) % 64) as byte,
       (0x80 + (n / 64) % 64) as byte, (0x80 + n % 64) as byte]
  }

  /** `new TextEncoder().encode(s)`. */
  function Utf8Encode(s: string): seq<byte> {
    if s == [] then [] else Utf8Char(s[0]) + Utf8Encode(s[1..])
  }

  /** On ASCII text the encoder emits one byte per character, equal to the
      character's code. */
  lemma {:induction false} Utf8EncodeAscii(s: string)
    requires IsAscii(s)
    ensures |Utf8Encode(s)| == |s|
    ensures forall i :: 0 <= i < |s| ==> Utf8Encode(s)[i] as int == s[i] as int
  {
    if s != [] {
      Utf8EncodeAscii(s[1..]);
      var e := Utf8Encode(s);
      assert e == Utf8Char(s[0]) + Utf8Encode(s[1..]);
      forall i | 0 <= i < |s| ensures e[i] as int == s[i] as int {
        if i > 0 {
          assert e[i] == Utf8Encode(s[1..])[i - 1];
        }
      }
    }
  }
}

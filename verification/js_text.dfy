/**
 * The JavaScript string and number operations the transcoder relies on:
 * Number.parseInt / parseFloat, Number.prototype.toString / toFixed,
 * String.prototype.split / replace / substring / lastIndexOf / toLowerCase,
 * and Node's path.basename.
 *
 * A JavaScript number is modelled as the exact decimal `m / 10^k` or NaN;
 * binary floating-point rounding is not modelled.
 */
module JsText {

  /** A number value: the exact decimal `m / 10^k`, or NaN. */
  datatype Number = Dec(m: int, k: nat) | NaN

  function Pow10(k: nat): (r: nat)
    ensures r >= 1
  {
    if k == 0 then 1 else 10 * Pow10(k - 1)
  }

  /** The number `i`, as an integer-valued Number. */
  function Int(i: int): Number { Dec(i, 0) }

  // ---------------------------------------------------------------------
  // Digits

  /** The value of `c` as a digit in `radix` (10 or 16), or -1. */
  function DigitValue(c: char, radix: nat): (r: int)
    ensures r == -1 || 0 <= r < radix
  {
    if '0' <= c <= '9' && (c as int - '0' as int) < radix then c as int - '0' as int
    else if radix == 16 && 'a' <= c <= 'f' then c as int - 'a' as int + 10
    else if radix == 16 && 'A' <= c <= 'F' then c as int - 'A' as int + 10
    else -1
  }

  predicate IsDigit(c: char, radix: nat) { DigitValue(c, radix) >= 0 }

  /** The lower-case digit character for `d`. */
  function DigitChar(d: nat): (c: char)
    requires d < 16
    ensures IsDigit(c, 16) && DigitValue(c, 16) == d
    ensures d < 10 ==> IsDigit(c, 10) && DigitValue(c, 10) == d
  {
    "0123456789abcdef"[d]
  }

  /** `n` written in `radix` without leading zeros (Number.prototype.toString(radix)). */
  function NatToRadix(n: nat, radix: nat): (s: string)
    requires 2 <= radix <= 16
    decreases n
  {
    if n < radix then [DigitChar(n)] else NatToRadix(n / radix, radix) + [DigitChar(n % radix)]
  }

  function NatToString(n: nat): string { NatToRadix(n, 10) }

  /** Number.prototype.toString() of an integer. */
  function IntToString(i: int): string
  {
    if i < 0 then "-" + NatToString(-i) else NatToString(i)
  }

  /** The value of a string of digits in `radix`, most significant first. */
  function DigitsValue(ds: string, radix: nat): nat
  {
    if ds == [] then 0
    else
      var d := DigitValue(ds[|ds| - 1], radix);
      DigitsValue(ds[..|ds| - 1], radix) * radix + (if d < 0 then 0 else d)
  }

  /** The length of the longest prefix of `s` made of digits in `radix`. */
  function DigitPrefixLength(s: string, radix: nat): (n: nat)
    ensures n <= |s|
    ensures forall i :: 0 <= i < n ==> IsDigit(s[i], radix)
    ensures n < |s| ==> !IsDigit(s[n], radix)
  {
    if |s| > 0 && IsDigit(s[0], radix) then 1 + DigitPrefixLength(s[1..], radix) else 0
  }

  lemma {:induction false} NatToRadixDigits(n: nat, radix: nat)
    requires radix == 10 || radix == 16
    ensures |NatToRadix(n, radix)| >= 1
    ensures forall i :: 0 <= i < |NatToRadix(n, radix)| ==> IsDigit(NatToRadix(n, radix)[i], radix)
    ensures DigitsValue(NatToRadix(n, radix), radix) == n
    decreases n
  {
    var s := NatToRadix(n, radix);
    if n >= radix {
      NatToRadixDigits(n / radix, radix);
      var p := NatToRadix(n / radix, radix);
      assert s == p + [DigitChar(n % radix)];
      assert s[..|s| - 1] == p;
    }
  }

  /** A natural number is below 10 to the power of its number of decimal digits. */
  lemma {:induction false} NatBelowPow10(n: nat)
    ensures n < Pow10(|NatToString(n)|)
    decreases n
  {
    if n >= 10 {
      NatBelowPow10(n / 10);
      assert NatToRadix(n, 10) == NatToRadix(n / 10, 10) + [DigitChar(n % 10)];
    }
  }

  lemma {:induction false} Pow10Monotone(a: nat, b: nat)
    requires a <= b
    ensures Pow10(a) <= Pow10(b)
    decreases b
  {
    if a < b {
      Pow10Monotone(a, b - 1);
    }
  }

  // ---------------------------------------------------------------------
  // Number.parseInt and Number.parseFloat

  /**
   * The white space and line terminators that parseInt and parseFloat skip:
   * tab, vertical tab, form feed, space, no-break space, the byte order mark,
   * every other space separator (U+1680, U+2000 to U+200A, U+202F, U+205F,
   * U+3000), and the line terminators LF, CR, U+2028 and U+2029.
   */
  const JsSpaces: set<char> :=
    {' ', '\t', '\n', '\r', '\U{000B}', '\U{000C}', '\U{00A0}', '\U{FEFF}', '\U{2028}', '\U{2029}',
     '\U{1680}', '\U{2000}', '\U{2001}', '\U{2002}', '\U{2003}', '\U{2004}', '\U{2005}', '\U{2006}',
     '\U{2007}', '\U{2008}', '\U{2009}', '\U{200A}', '\U{202F}', '\U{205F}', '\U{3000}'}

  predicate IsJsSpace(c: char)
  {
    c in JsSpaces
  }

  function TrimStart(s: string): (t: string)
    ensures |t| <= |s| && t == s[|s| - |t|..]
    ensures |t| > 0 ==> !IsJsSpace(t[0])
    ensures forall i :: 0 <= i < |s| - |t| ==> IsJsSpace(s[i])
  {
    if |s| > 0 && IsJsSpace(s[0]) then
      var t := TrimStart(s[1..]);
      assert forall i :: 1 <= i < |s| - |t| ==> s[i] == s[1..][i - 1];
      t
    else s
  }

  /** The unsigned part of parseInt: a "0x"/"0X" prefix selects radix 16, then the longest digit prefix. */
  function UnsignedInt(u: string): (r: Number)
    ensures r.Dec? ==> r.k == 0 && r.m >= 0
  {
    var hex := |u| >= 2 && u[0] == '0' && (u[1] == 'x' || u[1] == 'X');
    var radix := if hex then 16 else 10;
    var w := if hex then u[2..] else u;
    var n := DigitPrefixLength(w, radix);
    if n == 0 then NaN else Dec(DigitsValue(w[..n], radix), 0)
  }

  /**
   * Number.parseInt(s) with no radix: leading white space is skipped, then an
   * optional sign and the unsigned part; no digit at all gives NaN.
   */
  function ParseInt(s: string): (r: Number)
    ensures r.Dec? ==> r.k == 0
    ensures TrimStart(s) == "" ==> r.NaN?
    ensures var t := TrimStart(s); |t| > 0 && '1' <= t[0] <= '9' ==> r.Dec? && r.m >= 0
  {
    IntegerPrefix(TrimStart(s))
  }

  /** The integer read from the start of a text that has no leading white space. */
  function IntegerPrefix(t: string): (r: Number)
    ensures r.Dec? ==> r.k == 0
    ensures t == "" ==> r.NaN?
    ensures |t| > 0 && '1' <= t[0] <= '9' ==> r.Dec? && r.m >= 0
  {
    var neg := |t| > 0 && t[0] == '-';
    var u := if |t| > 0 && (t[0] == '-' || t[0] == '+') then t[1..] else t;
    var v := UnsignedInt(u);
    assert |t| > 0 && '1' <= t[0] <= '9' ==> v.Dec? by {
      if |t| > 0 && '1' <= t[0] <= '9' {
        LeadingDigit(u);
      }
    }
    if neg && v.Dec? then Dec(-v.m, 0) else v
  }

  /** A string that starts with a decimal digit has a non-empty decimal digit prefix. */
  lemma LeadingDigit(u: string)
    requires |u| > 0 && '0' <= u[0] <= '9'
    ensures DigitPrefixLength(u, 10) > 0
  {
    assert IsDigit(u[0], 10);
  }

  lemma UnsignedIntOfDigits(n: nat)
    ensures UnsignedInt(NatToString(n)) == Int(n)
  {
    var digits := NatToString(n);
    NatToRadixDigits(n, 10);
    assert |digits| >= 2 ==> digits[1] != 'x' && digits[1] != 'X' by {
      if |digits| >= 2 { assert IsDigit(digits[1], 10); }
    }
    var k := DigitPrefixLength(digits, 10);
    assert k == |digits|;
    assert digits[..k] == digits;
  }

  /** parseInt reads back every integer that toString writes. */
  lemma ParseIntOfIntToString(i: int)
    ensures ParseInt(IntToString(i)) == Int(i)
  {
    var a: nat := if i < 0 then -i else i;
    var digits := NatToString(a);
    NatToRadixDigits(a, 10);
    UnsignedIntOfDigits(a);
    var c := digits[0];
    assert IsDigit(c, 10);
    SignOrDigitNotSpace(c);
    var s := IntToString(i);
    if i < 0 {
      assert s == "-" + digits;
      assert s[1..] == digits;
      SignOrDigitNotSpace('-');
      assert TrimStart(s) == s;
    } else {
      assert s == digits;
      assert TrimStart(s) == s;
    }
    var t := TrimStart(s);
    var u := if |t| > 0 && (t[0] == '-' || t[0] == '+') then t[1..] else t;
    assert u == digits;
  }

  /** Signs and decimal digits are not white space. */
  lemma SignOrDigitNotSpace(c: char)
    requires c == '-' || c == '+' || '0' <= c <= '9'
    ensures !IsJsSpace(c)
  {
  }

  /** Distinct integers print differently. */
  lemma IntToStringInjective(a: int, b: int)
    requires IntToString(a) == IntToString(b)
    ensures a == b
  {
    ParseIntOfIntToString(a);
    ParseIntOfIntToString(b);
  }

  /**
   * Number.parseFloat(s) on decimal literals: optional sign, integer digits,
   * optionally '.' and fraction digits; the longest such prefix is read and
   * no digit at all gives NaN.
   */
  function ParseFloat(s: string): (r: Number)
    ensures TrimStart(s) == "" ==> r.NaN?
    ensures var t := TrimStart(s); |t| > 0 && '0' <= t[0] <= '9' ==> r.Dec? && r.m >= 0
  {
    DecimalPrefix(TrimStart(s))
  }

  /** The number read from the start of a text that has no leading white space. */
  function DecimalPrefix(t: string): (r: Number)
    ensures t == "" ==> r.NaN?
    ensures |t| > 0 && '0' <= t[0] <= '9' ==> r.Dec? && r.m >= 0
  {
    var neg := |t| > 0 && t[0] == '-';
    var u := if |t| > 0 && (t[0] == '-' || t[0] == '+') then t[1..] else t;
    var n := DigitPrefixLength(u, 10);
    assert |t| > 0 && '0' <= t[0] <= '9' ==> n > 0 by {
      if |t| > 0 && '0' <= t[0] <= '9' {
        LeadingDigit(u);
      }
    }
    var rest := u[n..];
    var f := if |rest| > 0 && rest[0] == '.' then DigitPrefixLength(rest[1..], 10) else 0;
    if n == 0 && f == 0 then NaN
    else
      var digits := u[..n] + (if f > 0 then rest[1..1 + f] else "");
      var v: int := DigitsValue(digits, 10);
      Dec(if neg then -v else v, f)
  }

  /** A white-space character before a number, a space separator such as U+3000 included, is skipped. */
  lemma LeadingSpaceSkipped(c: char, s: string)
    requires IsJsSpace(c)
    ensures ParseInt([c] + s) == ParseInt(s) && ParseFloat([c] + s) == ParseFloat(s)
  {
    assert ([c] + s)[1..] == s;
    assert TrimStart([c] + s) == TrimStart(s);
    SameTrimmedText([c] + s, s);
  }

  /** parseInt and parseFloat read only what is left once leading white space is removed. */
  lemma SameTrimmedText(a: string, b: string)
    requires TrimStart(a) == TrimStart(b)
    ensures ParseInt(a) == ParseInt(b) && ParseFloat(a) == ParseFloat(b)
  {
  }

  // ---------------------------------------------------------------------
  // Number.prototype.toString, truthiness and arithmetic

  /** Removes trailing decimal zeros: the same value with the smallest scale. */
  function Normalize(m: int, k: nat): (r: (int, nat))
    ensures r.1 <= k
    ensures r.1 > 0 ==> r.0 % 10 != 0
    decreases k
  {
    if k > 0 && m % 10 == 0 then Normalize(m / 10, k - 1) else (m, k)
  }

  function PadLeft(s: string, width: nat): (r: string)
    ensures |r| == if |s| < width then width else |s|
    decreases width - |s|
  {
    if |s| < width then PadLeft("0" + s, width) else s
  }

  /** The decimal text of `a / 10^k` with exactly `k` fraction digits. */
  function FixedText(a: nat, k: nat): string
  {
    var scale := Pow10(k);
    var q, r := Quotient(a, scale), Remainder(a, scale);
    NatToString(q) + "." + PadLeft(NatToString(r), k)
  }

  /** Division and remainder of naturals by a positive divisor stay natural. */
  function Quotient(a: nat, b: nat): (q: nat)
    requires b >= 1
    ensures q == a / b
  {
    a / b
  }

  function Remainder(a: nat, b: nat): (r: nat)
    requires b >= 1
    ensures r == a % b && r < b
  {
    a % b
  }

  /** Number.prototype.toString() (no exponent notation). */
  function NumberText(n: Number): string
  {
    match n
    case NaN => "NaN"
    case Dec(m0, k0) =>
      var r := Normalize(m0, k0);
      if r.1 == 0 then IntToString(r.0)
      else (if r.0 < 0 then "-" else "") + FixedText(if r.0 < 0 then -r.0 else r.0, r.1)
  }

  /** An integer prints as IntToString. */
  lemma NumberTextOfInt(i: int)
    ensures NumberText(Int(i)) == IntToString(i)
  {
  }

  /** JavaScript truthiness of a number: neither 0 nor NaN. */
  predicate NumberTruthy(n: Number) { n.Dec? && n.m != 0 }

  /** `n != 0` in JavaScript (true for NaN). */
  predicate NonZero(n: Number) { !(n.Dec? && n.m == 0) }

  /** `n > 0` in JavaScript (false for NaN). */
  predicate Positive(n: Number) { n.Dec? && n.m > 0 }

  function Add(a: Number, b: Number): Number
  {
    if a.NaN? || b.NaN? then NaN else Dec(a.m * Pow10(b.k) + b.m * Pow10(a.k), a.k + b.k)
  }

  function Mul(a: Number, b: Number): Number
  {
    if a.NaN? || b.NaN? then NaN else Dec(a.m * b.m, a.k + b.k)
  }

  /** Math.floor(n * 255). */
  function FloorTimes255(n: Number): Number
  {
    match n
    case NaN => NaN
    case Dec(m, k) => Dec((m * 255) / Pow10(k), 0)
  }

  /** `n < 1` in JavaScript (false for NaN). */
  predicate LessThanOne(n: Number) { n.Dec? && n.m < Pow10(n.k) }

  /** n.toString(16) of a number; integral here. */
  function HexText(n: Number): string
  {
    match n
    case NaN => "NaN"
    case Dec(m, k) =>
      var i := m / Pow10(k);
      if i < 0 then "-" + NatToRadix(-i, 16) else NatToRadix(i, 16)
  }

  /** A product of positive factors is positive. */
  function Scale(p: nat, w: nat): (r: nat)
    requires p >= 1 && w >= 1
    ensures r >= w
  {
    assert p * w == (p - 1) * w + w;
    p * w
  }

  /** mag / den rounded to thousandths, ties away from zero. */
  function RoundedThousandths(mag: nat, den: nat): nat
    requires den >= 1
  {
    (2 * mag * 1000 + den) / (2 * den)
  }

  /**
   * (a / w).toFixed(3) for an integer-valued divisor w > 0: the quotient
   * rounded to three decimals, ties away from zero, "-" for a negative quotient.
   */
  function ToFixed3(a: Number, w: nat): string
    requires w > 0
  {
    match a
    case NaN => "NaN"
    case Dec(m, k) =>
      var mag: nat := if m < 0 then -m else m;
      var thousandths := RoundedThousandths(mag, Scale(Pow10(k), w));
      (if m < 0 then "-" else "") + NatToString(thousandths / 1000) + "."
        + PadLeft(NatToString(thousandths % 1000), 3)
  }

  // ---------------------------------------------------------------------
  // Strings

  function ToLowerChar(c: char): char
  {
    if 'A' <= c <= 'Z' then (c as int - 'A' as int + 'a' as int) as char else c
  }

  /** String.prototype.toLowerCase on ASCII letters. */
  function ToLower(s: string): (r: string)
    ensures |r| == |s| && forall i :: 0 <= i < |s| ==> r[i] == ToLowerChar(s[i])
  {
    if s == [] then [] else [ToLowerChar(s[0])] + ToLower(s[1..])
  }

  predicate StartsWith(s: string, p: string) { |p| <= |s| && s[..|p|] == p }

  predicate EndsWith(s: string, p: string) { |p| <= |s| && s[|s| - |p|..] == p }

  /** String.prototype.indexOf for one character: the first index, or -1. */
  function IndexOfChar(s: string, c: char): (i: int)
    ensures -1 <= i < |s|
    ensures i >= 0 ==> s[i] == c && c !in s[..i]
    ensures i < 0 ==> c !in s
  {
    if |s| == 0 then -1
    else if s[0] == c then 0
    else var j := IndexOfChar(s[1..], c); if j < 0 then -1 else j + 1
  }

  /** String.prototype.lastIndexOf for one character: the last index, or -1. */
  function LastIndexOfChar(s: string, c: char): (i: int)
    ensures -1 <= i < |s|
    ensures i >= 0 ==> s[i] == c && c !in s[i + 1..]
    ensures i < 0 ==> c !in s
  {
    if |s| == 0 then -1
    else if s[|s| - 1] == c then |s| - 1
    else LastIndexOfChar(s[..|s| - 1], c)
  }

  /** s.substring(0, s.length - 1): drops the last character ("" stays ""). */
  function DropLast(s: string): (r: string)
    ensures |s| > 0 ==> s == r + [s[|s| - 1]]
    ensures |s| == 0 ==> r == ""
  {
    if |s| == 0 then "" else s[..|s| - 1]
  }

  /** Dropping the last character of a text ending in a non-empty part drops it from that part. */
  lemma DropLastAppend(a: string, b: string)
    requires |b| > 0
    ensures DropLast(a + b) == a + DropLast(b)
  {
    assert (a + b)[..|a + b| - 1] == a + b[..|b| - 1];
  }

  /** Dropping the last character of a text with a non-empty tail only touches the tail. */
  lemma DropLastAfter(content: string, x: string, close: string)
    requires |x| > 0
    ensures DropLast(content + x) + close == content + (DropLast(x) + close)
  {
    DropLastAppend(content, x);
    StringAssoc(content, DropLast(x), close);
  }

  /** The texts f(0), f(1), …, f(n-1), one after another. */
  function Concat(f: nat -> string, n: nat): string
  {
    if n == 0 then "" else Concat(f, n - 1) + f(n - 1)
  }

  /** Concatenating more texts extends the shorter concatenation. */
  lemma {:induction false} ConcatGrows(f: nat -> string, m: nat, n: nat)
    requires m <= n
    ensures StartsWith(Concat(f, n), Concat(f, m))
    decreases n
  {
    if m < n {
      ConcatGrows(f, m, n - 1);
      StartsWithAppend(Concat(f, n - 1), f(n - 1));
      StartsWithTrans(Concat(f, n), Concat(f, n - 1), Concat(f, m));
    }
  }

  /** The three parts of a concatenation can be read back by position. */
  lemma ThreeParts(a: string, b: string, c: string)
    ensures var r := a + b + c;
            r[..|a|] == a && r[|a|..|r| - |c|] == b && r[|r| - |c|..] == c
  {
    var x := a + b;
    assert (x + c)[..|x|] == x && (x + c)[|x|..] == c;
    assert x[..|a|] == a && x[|a|..] == b;
  }

  lemma StringAssoc(a: string, b: string, c: string)
    ensures a + (b + c) == (a + b) + c
  {
  }

  lemma StartsWithTrans(s: string, p: string, q: string)
    requires StartsWith(s, p) && StartsWith(p, q)
    ensures StartsWith(s, q)
  {
    assert s[..|q|] == s[..|p|][..|q|];
  }

  lemma StartsWithAppend(a: string, b: string)
    ensures StartsWith(a + b, a)
  {
    assert (a + b)[..|a|] == a;
  }

  lemma EndsWithAppend(a: string, b: string, c: string)
    requires EndsWith(b, c)
    ensures EndsWith(a + b, c)
  {
    assert (a + b)[|a + b| - |c|..] == b[|b| - |c|..];
  }

  /** s.substring(i): the suffix from i, "" when i is past the end. */
  function SubstringFrom(s: string, i: nat): string
  {
    if i <= |s| then s[i..] else ""
  }

  /** s.replace(c, d) with a one-character string pattern: only the first occurrence. */
  function ReplaceFirst(s: string, c: char, d: char): (r: string)
    ensures |r| == |s|
    ensures c !in s ==> r == s
    ensures c in s ==> var i := IndexOfChar(s, c);
      r == s[..i] + [d] + s[i + 1..]
  {
    var i := IndexOfChar(s, c);
    if i < 0 then s else s[..i] + [d] + s[i + 1..]
  }

  /** s.replace(/c/g, d): every occurrence. */
  function ReplaceAll(s: string, c: char, d: char): (r: string)
    ensures |r| == |s|
    ensures forall i :: 0 <= i < |s| ==> r[i] == if s[i] == c then d else s[i]
  {
    if s == [] then [] else [if s[0] == c then d else s[0]] + ReplaceAll(s[1..], c, d)
  }

  /** s.split(c) for a one-character separator. */
  function Split(s: string, c: char): (parts: seq<string>)
    ensures |parts| >= 1
    ensures forall i :: 0 <= i < |parts| ==> c !in parts[i]
    decreases |s|
  {
    var i := IndexOfChar(s, c);
    if i < 0 then [s]
    else
      var rest := Split(s[i + 1..], c);
      NoCharCons(s[..i], rest, c);
      [s[..i]] + rest
  }

  lemma NoCharCons(head: string, rest: seq<string>, c: char)
    requires c !in head
    requires forall i :: 0 <= i < |rest| ==> c !in rest[i]
    ensures forall i :: 0 <= i < |[head] + rest| ==> c !in ([head] + rest)[i]
  {
    var parts := [head] + rest;
    assert forall k :: 1 <= k < |parts| ==> parts[k] == rest[k - 1];
  }

  /** parts.join(c): the inverse of Split. */
  function Join(parts: seq<string>, c: char): string
    requires |parts| >= 1
  {
    if |parts| == 1 then parts[0] else parts[0] + [c] + Join(parts[1..], c)
  }

  /** Joining the pieces of a split gives back the string. */
  lemma {:induction false} JoinSplit(s: string, c: char)
    ensures Join(Split(s, c), c) == s
    decreases |s|
  {
    var i := IndexOfChar(s, c);
    if i >= 0 {
      JoinSplit(s[i + 1..], c);
      assert s == s[..i] + [c] + s[i + 1..];
    }
  }

  /** Splitting a join of separator-free pieces gives back the pieces. */
  lemma {:induction false} SplitJoin(parts: seq<string>, c: char)
    requires |parts| >= 1
    requires forall i :: 0 <= i < |parts| ==> c !in parts[i]
    ensures Split(Join(parts, c), c) == parts
    decreases |parts|
  {
    if |parts| > 1 {
      var rest := Join(parts[1..], c);
      var s := parts[0] + [c] + rest;
      assert IndexOfChar(s, c) == |parts[0]| by {
        assert s[|parts[0]|] == c;
        assert s[..|parts[0]|] == parts[0];
      }
      assert s[|parts[0]| + 1..] == rest;
      assert s[..|parts[0]|] == parts[0];
      SplitJoin(parts[1..], c);
    }
  }

  /** Each piece followed by `c`: what a loop of `acc = acc.concat(piece, c)` builds. */
  function Terminated(parts: seq<string>, c: char): (r: string)
    ensures |parts| > 0 ==> |r| > 0 && r[|r| - 1] == c
  {
    if |parts| == 0 then "" else Terminated(parts[..|parts| - 1], c) + parts[|parts| - 1] + [c]
  }

  lemma TerminatedEmpty(parts: seq<string>, c: char)
    ensures Terminated(parts, c) == "" <==> |parts| == 0
  {
  }

  /** One more piece adds it and its terminator at the end. */
  lemma TerminatedAppend(parts: seq<string>, x: string, c: char)
    ensures Terminated(parts + [x], c) == Terminated(parts, c) + x + [c]
  {
    assert (parts + [x])[..|parts|] == parts;
  }

  lemma {:induction false} JoinAppend(parts: seq<string>, x: string, c: char)
    requires |parts| >= 1
    ensures Join(parts + [x], c) == Join(parts, c) + [c] + x
    decreases |parts|
  {
    if |parts| > 1 {
      assert (parts + [x])[1..] == parts[1..] + [x];
      JoinAppend(parts[1..], x, c);
    }
  }

  /** Dropping the last terminator of a terminated list leaves the joined list. */
  lemma {:induction false} DropLastTerminated(parts: seq<string>, c: char)
    requires |parts| >= 1
    ensures DropLast(Terminated(parts, c)) == Join(parts, c)
    decreases |parts|
  {
    var init := parts[..|parts| - 1];
    var last := parts[|parts| - 1];
    if |init| == 0 {
      assert parts == [last];
    } else {
      DropLastTerminated(init, c);
      JoinAppend(init, last, c);
      assert parts == init + [last];
    }
  }

  /** A decimal numeral holds only digits. */
  lemma NatTextHasOnlyDigits(n: nat, c: char)
    requires !IsDigit(c, 10)
    ensures c !in IntToString(n)
  {
    NatToRadixDigits(n, 10);
  }

  /** The position of `x` in `xs`, or -1 (Array.prototype.indexOf). */
  function IndexOf(xs: seq<string>, x: string): (i: int)
    ensures -1 <= i < |xs|
    ensures i >= 0 ==> xs[i] == x && x !in xs[..i]
    ensures i < 0 ==> x !in xs
  {
    if |xs| == 0 then -1
    else if xs[0] == x then 0
    else var j := IndexOf(xs[1..], x); if j < 0 then -1 else j + 1
  }

  function TrimTrailingSlashes(p: string): (r: string)
    ensures |r| <= |p| && r == p[..|r|]
    ensures |r| > 1 ==> r[|r| - 1] != '/'
  {
    if |p| > 1 && p[|p| - 1] == '/' then TrimTrailingSlashes(p[..|p| - 1]) else p
  }

  /** Node's path.basename (POSIX): the last segment, trailing separators ignored. */
  function Basename(p: string): (r: string)
    ensures var q := TrimTrailingSlashes(p);
            |r| <= |q| && r == q[|q| - |r|..] && '/' !in r
            && (|r| < |q| ==> q[|q| - |r| - 1] == '/')
  {
    var q := TrimTrailingSlashes(p);
    var i := LastIndexOfChar(q, '/');
    q[i + 1..]
  }

  /** The name without its last extension; a leading dot is not an extension. */
  function DropExtension(name: string): (r: string)
    ensures var i := LastIndexOfChar(name, '.'); r == if i > 0 then name[..i] else name
    ensures |r| <= |name| && r == name[..|r|]
    ensures r == name <==> forall k :: 0 < k < |name| ==> name[k] != '.'
    ensures |r| < |name| ==> |r| > 0 && name[|r|] == '.' && forall k :: |r| < k < |name| ==> name[k] != '.'
  {
    var i := LastIndexOfChar(name, '.');
    NoDotAfter(name, i);
    if i > 0 then name[..i] else name
  }

  /** Past the last dot there is none. */
  lemma NoDotAfter(name: string, i: int)
    requires i == LastIndexOfChar(name, '.')
    ensures forall k :: i < k < |name| ==> name[k] != '.'
  {
    if i >= 0 {
      forall k | i < k < |name|
        ensures name[k] != '.'
      {
        assert name[k] == name[i + 1..][k - i - 1];
      }
    }
  }

  /**
   * The base name of a path without its extension: the last segment, cut
   * at its last dot unless that dot is the segment's first character.
   */
  function Stem(p: string): (r: string)
    ensures var b := Basename(p);
            |r| <= |b| && r == b[..|r|] && '/' !in r
            && (r == b <==> forall k :: 0 < k < |b| ==> b[k] != '.')
            && (|r| < |b| ==> |r| > 0 && b[|r|] == '.' && forall k :: |r| < k < |b| ==> b[k] != '.')
  {
    DropExtension(Basename(p))
  }
}

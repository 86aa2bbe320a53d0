/** The string and number conversions the pipeline relies on: Python's
    `str.strip()` and `str.lower()` (combined in the engine's `_lower`),
    `int(s, base)`, `hex(n)`, `str(n)` and `sep.join(parts)`. */
module Text {
  import opened Common

  /** Python's `str.isspace()` for one character: the ASCII controls \t..\r,
      the separators \x1c..\x1f, the space, and the Unicode spaces. */
  predicate IsSpace(c: char) {
    var n := c as int;
    n == 0x20 || 0x09 <= n <= 0x0D || 0x1C <= n <= 0x1F || n == 0x85 || n == 0xA0
    || n == 0x1680 || 0x2000 <= n <= 0x200A || n == 0x2028 || n == 0x2029
    || n == 0x202F || n == 0x205F || n == 0x3000
  }

  /** The number of white-space characters that start s. */
  function LeadingSpaces(s: string): (k: nat)
    ensures k <= |s|
  {
    if |s| > 0 && IsSpace(s[0]) then 1 + LeadingSpaces(s[1..]) else 0
  }

  /** The leading white space is all white space, and what follows it is not. */
  lemma {:induction false} LeadingSpacesMeaning(s: string)
    ensures forall i :: 0 <= i < LeadingSpaces(s) ==> IsSpace(s[i])
    ensures LeadingSpaces(s) == |s| || !IsSpace(s[LeadingSpaces(s)])
  {
    if |s| > 0 && IsSpace(s[0]) {
      LeadingSpacesMeaning(s[1..]);
    }
  }

  /** The length of s without the white space that ends it. */
  function KeptLength(s: string): (k: nat)
    ensures k <= |s|
  {
    if |s| > 0 && IsSpace(s[|s| - 1]) then KeptLength(s[..|s| - 1]) else |s|
  }

  /** The trailing white space is all white space, and what precedes it is not. */
  lemma {:induction false} KeptLengthMeaning(s: string)
    ensures forall i :: KeptLength(s) <= i < |s| ==> IsSpace(s[i])
    ensures KeptLength(s) == 0 || !IsSpace(s[KeptLength(s) - 1])
  {
    if |s| > 0 && IsSpace(s[|s| - 1]) {
      KeptLengthMeaning(s[..|s| - 1]);
    }
  }

  /** `s.lstrip()`. */
  function StripStart(s: string): string {
    s[LeadingSpaces(s)..]
  }

  /** `s.rstrip()`. */
  function StripEnd(s: string): string {
    s[..KeptLength(s)]
  }

  /** No white space at either end. */
  predicate Trimmed(s: string) {
    s == [] || (!IsSpace(s[0]) && !IsSpace(s[|s| - 1]))
  }

  /** `s.strip()`. */
  function Strip(s: string): (r: string)
    ensures |r| <= |s|
  {
    StripEnd(StripStart(s))
  }

  /** What `strip()` leaves has no white space at either end. */
  lemma StripTrimmed(s: string)
    ensures Trimmed(Strip(s))
  {
    var a := LeadingSpaces(s);
    LeadingSpacesMeaning(s);
    KeptLengthMeaning(s[a..]);
  }

  lemma StripKeepsTrimmed(s: string)
    requires Trimmed(s)
    ensures Strip(s) == s
  {
  }

  /** Stripping twice is stripping once. */
  lemma StripIdempotent(s: string)
    ensures Strip(Strip(s)) == Strip(s)
  {
    StripTrimmed(s);
    StripKeepsTrimmed(Strip(s));
  }

  /** `str.lower()` on one character; only ASCII letters are mapped. */
  function LowerChar(c: char): char {
    if 'A' <= c <= 'Z' then (c as int + 32) as char else c
  }

  function Lower(s: string): (r: string)
    ensures |r| == |s|
    ensures forall i :: 0 <= i < |s| ==> r[i] == LowerChar(s[i])
  {
    seq(|s|, i requires 0 <= i < |s| => LowerChar(s[i]))
  }

  /** The engine's `_lower`: `str(x or "").strip().lower()`; a missing value is "". */
  function Norm(s: string): string {
    Lower(Strip(s))
  }

  /** Normalising is idempotent: a normalised value is its own normal form,
      which is why values that went through `_lower` once (the list sets, the
      known set) compare equal to values normalised again. */
  lemma NormIdempotent(s: string)
    ensures Norm(Norm(s)) == Norm(s)
  {
    var t := Strip(s);
    var l := Lower(t);
    StripTrimmed(s);
    assert Trimmed(l) by {
      if l != [] {
        assert l[0] == LowerChar(t[0]);
        assert l[|l| - 1] == LowerChar(t[|t| - 1]);
      }
    }
    StripKeepsTrimmed(l);
    assert Lower(l) == l;
  }

  /** Values that differ only in the case of ASCII letters have the same
      normal form: the engine's list and known-set lookups ignore case. */
  lemma NormIgnoresCase(s1: string, s2: string)
    requires Lower(s1) == Lower(s2)
    ensures Norm(s1) == Norm(s2)
  {
    assert |s1| == |s2|;
    assert forall i :: 0 <= i < |s1| ==> LowerChar(s1[i]) == LowerChar(s2[i]) by {
      forall i | 0 <= i < |s1| ensures LowerChar(s1[i]) == LowerChar(s2[i]) {
        assert Lower(s1)[i] == Lower(s2)[i];
      }
    }
    SameSpacesSameStrip(s1, s2);
    var t1, t2 := Strip(s1), Strip(s2);
    assert |t1| == |t2|;
    forall i | 0 <= i < |t1| ensures Lower(t1)[i] == Lower(t2)[i] {
      var a := LeadingSpaces(s1);
      assert t1[i] == s1[a + i] && t2[i] == s2[a + i];
    }
  }

  /** Two strings with white space at the same positions strip alike. */
  lemma SameSpacesSameStrip(s1: string, s2: string)
    requires |s1| == |s2|
    requires forall i :: 0 <= i < |s1| ==> LowerChar(s1[i]) == LowerChar(s2[i])
    ensures LeadingSpaces(s1) == LeadingSpaces(s2)
    ensures KeptLength(s1[LeadingSpaces(s1)..]) == KeptLength(s2[LeadingSpaces(s2)..])
    ensures |Strip(s1)| == |Strip(s2)|
  {
    assert forall i :: 0 <= i < |s1| ==> IsSpace(s1[i]) == IsSpace(s2[i]) by {
      forall i | 0 <= i < |s1| ensures IsSpace(s1[i]) == IsSpace(s2[i]) {
        assert IsSpace(s1[i]) == IsSpace(LowerChar(s1[i]));
        assert IsSpace(s2[i]) == IsSpace(LowerChar(s2[i]));
      }
    }
    var a := LeadingSpaces(s1);
    LeadingSpacesMeaning(s1);
    LeadingSpacesMeaning(s2);
    assert a == LeadingSpaces(s2);
    var u1, u2 := s1[a..], s2[a..];
    assert forall i :: 0 <= i < |u1| ==> IsSpace(u1[i]) == IsSpace(u2[i]);
    KeptLengthMeaning(u1);
    KeptLengthMeaning(u2);
    assert KeptLength(u1) == KeptLength(u2);
  }

  /** The character of a digit value below 16, lower-case as `hex()` prints it. */
  function DigitChar(d: nat): char
    requires d < 16
  {
    if d < 10 then ('0' as int + d) as char else ('a' as int + d - 10) as char
  }

  /** The value of a digit character as `int(s, base)` reads it (either case). */
  function DigitValue(c: char): Option<nat> {
    if '0' <= c <= '9' then Some(c as int - '0' as int)
    else if 'a' <= c <= 'z' then Some(c as int - 'a' as int + 10)
    else if 'A' <= c <= 'Z' then Some(c as int - 'A' as int + 10)
    else None
  }

  /** The digits of n in the given base, most significant first, no leading zero. */
  function ToDigits(n: nat, base: nat): (r: string)
    requires base == 10 || base == 16
    ensures |r| >= 1
    ensures forall i :: 0 <= i < |r| ==> '0' <= r[i] <= '9' || 'a' <= r[i] <= 'f'
    decreases n
  {
    if n < base then [DigitChar(n)]
    else
      DivMod(n, base);
      ToDigits(n / base, base) + [DigitChar(n % base)]
  }

  /** The value of a non-empty string of digits below `base`; None otherwise. */
  function DigitsValue(d: string, base: nat): Option<nat>
    requires base >= 2
  {
    if |d| == 0 then None
    else
      var last := DigitValue(d[|d| - 1]);
      if last.None? || last.value >= base then None
      else if |d| == 1 then Some(last.value)
      else match DigitsValue(d[..|d| - 1], base)
        case None => None
        case Some(p) => Some(p * base + last.value)
  }

  lemma DigitValueOfDigitChar(d: nat)
    requires d < 16
    ensures DigitValue(DigitChar(d)) == Some(d)
  {
  }

  lemma DigitsValueSnoc(p: string, d: nat, base: nat)
    requires (base == 10 || base == 16) && d < base && |p| >= 1
    ensures DigitsValue(p + [DigitChar(d)], base) ==
      match DigitsValue(p, base)
      case None => None
      case Some(v) => Some(v * base + d)
  {
    var s := p + [DigitChar(d)];
    assert s[..|s| - 1] == p;
    DigitValueOfDigitChar(d);
  }

  lemma DivMod(n: nat, base: nat)
    requires base == 10 || base == 16
    ensures (n / base) * base + n % base == n
    ensures 0 <= n % base < base
    ensures n >= 1 ==> n / base < n
  {
    if base == 10 {
      assert (n / 10) * 10 + n % 10 == n;
    } else {
      assert (n / 16) * 16 + n % 16 == n;
    }
  }

  lemma {:induction false} DigitsRoundTrip(n: nat, base: nat)
    requires base == 10 || base == 16
    ensures DigitsValue(ToDigits(n, base), base) == Some(n)
    decreases n
  {
    if n < base {
      DigitValueOfDigitChar(n);
    } else {
      var q, r := n / base, n % base;
      DivMod(n, base);
      assert ToDigits(n, base) == ToDigits(q, base) + [DigitChar(r)];
      DigitsRoundTrip(q, base);
      DigitsValueSnoc(ToDigits(q, base), r, base);
    }
  }

  /** What follows an optional leading sign. */
  function Unsigned(t: string): string {
    if |t| > 0 && (t[0] == '-' || t[0] == '+') then t[1..] else t
  }

  /** What follows an optional 0x/0X prefix. */
  function DropHexPrefix(b: string): string {
    if |b| >= 2 && b[0] == '0' && (b[1] == 'x' || b[1] == 'X') then b[2..] else b
  }

  /** Python's `int(s, base)` for base 10 or 16: surrounding white space, an
      optional sign, for base 16 an optional 0x/0X prefix, then one or more
      digits. None is the ValueError. */
  function ParseInt(s: string, base: nat): Option<int>
    requires base == 10 || base == 16
  {
    ParseTrimmed(Strip(s), base)
  }

  /** `int(t, base)` once the white space is gone. */
  function ParseTrimmed(t: string, base: nat): Option<int>
    requires base == 10 || base == 16
  {
    var digits := if base == 16 then DropHexPrefix(Unsigned(t)) else Unsigned(t);
    match DigitsValue(digits, base)
    case None => None
    case Some(v) =>
      var value: int := if |t| > 0 && t[0] == '-' then -(v as int) else v;
      Some(value)
  }

  /** Python's `str(n)`. */
  function IntToString(n: int): string {
    if n < 0 then "-" + ToDigits(-n, 10) else ToDigits(n, 10)
  }

  /** Python's `hex(n)` for n >= 0. */
  function HexString(n: nat): string {
    "0x" + ToDigits(n, 16)
  }

  /** A digit character is neither white space nor a sign. */
  lemma DigitCharIsPlain(c: char)
    requires '0' <= c <= '9' || 'a' <= c <= 'f'
    ensures !IsSpace(c) && c != '-' && c != '+'
  {
  }

  /** The digits `str` and `hex` print have no white space around them and
      no sign in front. */
  lemma DigitsTrimmed(m: nat, base: nat)
    requires base == 10 || base == 16
    ensures |ToDigits(m, base)| > 0 && Trimmed(ToDigits(m, base))
    ensures ToDigits(m, base)[0] != '-' && ToDigits(m, base)[0] != '+'
  {
    var d := ToDigits(m, base);
    DigitCharIsPlain(d[0]);
    DigitCharIsPlain(d[|d| - 1]);
  }

  /** A sign (or none) in front of trimmed, unsigned digits: stripping keeps
      the text and dropping the sign gives the digits back. */
  lemma SignedText(d: string, neg: bool)
    requires |d| > 0 && Trimmed(d) && d[0] != '-' && d[0] != '+'
    ensures Strip((if neg then "-" else "") + d) == (if neg then "-" else "") + d
    ensures Unsigned((if neg then "-" else "") + d) == d
  {
    var s := (if neg then "-" else "") + d;
    assert s[|s| - 1] == d[|d| - 1];
    StripKeepsTrimmed(s);
  }

  /** `str(n)`: no white space around it, the digits of |n| after the
      optional sign, and a leading '-' exactly for negative n. */
  lemma IntTextShape(n: int)
    ensures |IntToString(n)| > 0 && Strip(IntToString(n)) == IntToString(n)
    ensures Unsigned(IntToString(n)) == ToDigits(if n < 0 then -n else n, 10)
    ensures (IntToString(n)[0] == '-') == (n < 0)
  {
    var m: nat := if n < 0 then -n else n;
    var d := ToDigits(m, 10);
    DigitsTrimmed(m, 10);
    SignedText(d, n < 0);
    assert (if n < 0 then "-" else "") + d == IntToString(n);
  }

  /** `int(str(n))` gives n back. */
  lemma ParseIntRoundTrip(n: int)
    ensures ParseInt(IntToString(n), 10) == Some(n)
  {
    var m: nat := if n < 0 then -n else n;
    IntTextShape(n);
    DigitsRoundTrip(m, 10);
  }

  /** Python's `str.replace(a, b)` for single characters. */
  function ReplaceChar(s: string, a: char, b: char): (r: string)
    ensures |r| == |s|
    ensures forall i :: 0 <= i < |s| ==> r[i] == (if s[i] == a then b else s[i])
  {
    seq(|s|, i requires 0 <= i < |s| => if s[i] == a then b else s[i])
  }

  function Pow10(n: nat): (p: nat)
    ensures p >= 1
  {
    if n == 0 then 1 else 10 * Pow10(n - 1)
  }

  /** The position of the first '.' in t, or |t| when there is none. */
  function DotIndex(t: string): (k: nat)
    ensures k <= |t|
    ensures forall i :: 0 <= i < k ==> t[i] != '.'
    ensures k < |t| ==> t[k] == '.'
  {
    if t == [] || t[0] == '.' then 0 else 1 + DotIndex(t[1..])
  }

  /** `float(t)` for unsigned decimal text: digits, optionally a point and
      more digits, with at least one digit in all ("5", "5.", ".5", "5.25"). */
  function UnsignedDecimal(t: string): Option<real> {
    var k := DotIndex(t);
    var whole := t[..k];
    var frac := if k < |t| then t[k + 1..] else [];
    if whole == [] && frac == [] then None
    else
      var w := if whole == [] then Some(0) else DigitsValue(whole, 10);
      var f := if frac == [] then Some(0) else DigitsValue(frac, 10);
      if w.None? || f.None? then None
      else Some(w.value as real + f.value as real / Pow10(|frac|) as real)
  }

  /** Python's `float(s)` for decimal text with an optional sign and
      surrounding white space; None is the ValueError. */
  function ParseFloat(s: string): Option<real> {
    var t := Strip(s);
    match UnsignedDecimal(Unsigned(t))
    case None => None
    case Some(v) => Some(if |t| > 0 && t[0] == '-' then -v else v)
  }

  /** The engine's `_to_float(x, default)`: a decimal comma is read as a
      point, and text `float` rejects gives the default. */
  function ToFloat(s: string, default: real): real {
    ParseFloat(ReplaceChar(s, ',', '.')).GetOr(default)
  }

  /** Digits without a point read as a decimal are their integer value. */
  lemma DecimalOfDigits(d: string, m: nat)
    requires |d| > 0 && DigitsValue(d, 10) == Some(m)
    requires forall i :: 0 <= i < |d| ==> d[i] != '.'
    ensures UnsignedDecimal(d) == Some(m as real)
  {
    assert DotIndex(d) == |d|;
    assert d[..|d|] == d;
  }

  /** Integer text holds no comma for `_to_float` to replace. */
  lemma IntTextHasNoComma(n: int)
    ensures ReplaceChar(IntToString(n), ',', '.') == IntToString(n)
  {
    var s := IntToString(n);
    var d := ToDigits(if n < 0 then -n else n, 10);
    assert s == (if n < 0 then "-" else "") + d;
    assert forall i :: 0 <= i < |s| ==> s[i] != ',';
  }

  /** `float(str(n))` is n. */
  lemma ParseFloatOfInt(n: int)
    ensures ParseFloat(IntToString(n)) == Some(n as real)
  {
    var m: nat := if n < 0 then -n else n;
    IntTextShape(n);
    DigitsRoundTrip(m, 10);
    DecimalOfDigits(ToDigits(m, 10), m);
  }

  /** `_to_float(str(n))` is n: integer text reads back exactly. */
  lemma ToFloatOfInt(n: int, default: real)
    ensures ToFloat(IntToString(n), default) == n as real
  {
    IntTextHasNoComma(n);
    ParseFloatOfInt(n);
  }

  /** The collector's `_hex_to_int`: `int(x or "0x0", 16)`, and 0 whenever
      that raises. */
  function HexToInt(x: Option<string>): int {
    match x
    case None => 0
    case Some(s) => if s == "" then 0 else ParseInt(s, 16).GetOr(0)
  }

  /** `_hex_to_int(hex(n)) == n`: the block numbers the collector requests
      with `hex(n)` read back as n. */
  lemma HexToIntInvertsHex(n: nat)
    ensures ParseInt(HexString(n), 16) == Some(n)
    ensures HexToInt(Some(HexString(n))) == n
  {
    var s := HexString(n);
    HexStringShape(n);
    StripKeepsTrimmed(s);
    DigitsRoundTrip(n, 16);
    assert ParseTrimmed(s, 16) == Some(n);
  }

  /** `hex(n)` is "0x" and the digits, with nothing around them. */
  lemma HexStringShape(n: nat)
    ensures var s := HexString(n);
      s != "" && s[0] == '0' && Trimmed(s) && Unsigned(s) == s && DropHexPrefix(s) == ToDigits(n, 16)
  {
    var s := HexString(n);
    var d := ToDigits(n, 16);
    DigitsTrimmed(n, 16);
    assert s[|s| - 1] == d[|d| - 1];
    assert s[2..] == d;
  }

  /** `_hex_to_int` falls back to 0 rather than raising: for None, for a bare
      "0x", and for any string without a hexadecimal digit. */
  lemma HexToIntFallsBackToZero(s: string)
    requires forall i :: 0 <= i < |s| ==> DigitValue(s[i]).None? || DigitValue(s[i]).value >= 16
    ensures HexToInt(None) == 0
    ensures HexToInt(Some(s)) == 0
  {
    var a := LeadingSpaces(s);
    var t := Strip(s);
    assert t == s[a..][..KeptLength(s[a..])];
    StripTrimmed(s);
    var digits := DropHexPrefix(Unsigned(t));
    if |digits| > 0 {
      assert digits[|digits| - 1] == t[|t| - 1] == s[a + |t| - 1];
    }
  }

  /** A bare "0x" is not a number for `int(_, 16)`; `_hex_to_int` gives 0. */
  lemma HexToIntOfBarePrefix()
    ensures HexToInt(Some("0x")) == 0
  {
    var s := "0x";
    assert Trimmed(s);
    StripKeepsTrimmed(s);
    assert Unsigned(s) == s;
    assert DropHexPrefix(s) == [];
  }

  /** Python's `sep.join(parts)`. */
  function Join(parts: seq<string>, sep: string): string {
    if |parts| == 0 then "" else if |parts| == 1 then parts[0]
    else parts[0] + sep + Join(parts[1..], sep)
  }

  predicate StartsWith(s: string, prefix: string) {
    |prefix| <= |s| && s[..|prefix|] == prefix
  }
}

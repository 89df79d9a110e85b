/** `str.encode()` with the default codec (UTF-8), and decoding back for
    ASCII text. */
module Encoding {
  import opened Wrappers
  import opened Bits

  type Bytes = seq<Byte>

  predicate IsAscii(s: string) {
    forall i :: 0 <= i < |s| ==> s[i] as int < 0x80
  }

  /** The UTF-8 encoding of one Unicode scalar value (RFC 3629, section 3). */
  function Utf8Char(c: char): (r: Bytes)
    ensures 1 <= |r| <= 4
    ensures |r| == 1 <==> c as int < 0x80
    ensures |r| == 1 ==> r[0] as int == c as int
  {
    var n := c as int;
    if n < 0x80 then
      [n as Byte]
    else if n < 0x800 then
      [(0xC0 + n / 64) as Byte, (0x80 + n % 64) as Byte]
    else if n < 0x1_0000 then
      [(0xE0 + n / 4096) as Byte, (0x80 + (n / 64) % 64) as Byte, (0x80 + n % 64) as Byte]
    else
      [(0xF0 + n / 0x4_0000) as Byte, (0x80 + (n / 4096) % 64) as Byte,
       (0x80 + (n / 64) % 64) as Byte, (0x80 + n % 64) as Byte]
  }

  /** `s.encode()`: the UTF-8 bytes of a string. */
  function Utf8(s: string): (r: Bytes)
    ensures |r| >= |s|
    ensures |r| == 0 <==> |s| == 0
    ensures IsAscii(s) ==> |r| == |s| && forall i :: 0 <= i < |s| ==> r[i] as int == s[i] as int
  {
    if |s| == 0 then [] else Utf8Char(s[0]) + Utf8(s[1..])
  }

  /** `b.decode("utf-8")` for bytes below 0x80, each of which is the ASCII
      character of that code; `None` once a byte is not ASCII (how the
      lenient decoder treats those is not modelled). */
  function DecodeAscii(b: Bytes): (r: Option<string>)
    ensures r.Some? ==> |r.value| == |b| && IsAscii(r.value)
  {
    if |b| == 0 then Some([])
    else if b[0] as int >= 0x80 then None
    else
      match DecodeAscii(b[1..])
      case None => None
      case Some(rest) => Some([b[0] as int as char] + rest)
  }

  lemma Utf8AsciiHead(s: string)
    requires |s| > 0 && s[0] as int < 0x80
    ensures Utf8(s) == [s[0] as int as Byte] + Utf8(s[1..])
  {
  }

  /** ASCII text survives `encode()` followed by `decode()`. */
  lemma {:induction false} DecodeAsciiUtf8(s: string)
    requires IsAscii(s)
    ensures DecodeAscii(Utf8(s)) == Some(s)
    decreases |s|
  {
    if |s| > 0 {
      var b := Utf8(s);
      Utf8AsciiHead(s);
      assert b[1..] == Utf8(s[1..]);
      assert IsAscii(s[1..]);
      DecodeAsciiUtf8(s[1..]);
      assert s == [b[0] as int as char] + s[1..];
    }
  }
}

/** Python's `str.isspace()` and `str.strip()`. */
module Whitespace {
  /** Python's `str.isspace()` for one character, the set `strip()`
      removes: the ASCII controls TAB..CR and FS..US, SPACE, and the other
      characters `str.isspace()` accepts (the space separators Zs, NEL, LS
      and PS). `int()` skips a smaller set, see `Numerals.IntSpace`. */
  predicate IsSpace(c: char) {
    var n := c as int;
    || 0x09 <= n <= 0x0D
    || 0x1C <= n <= 0x20
    || n == 0x85 || n == 0xA0 || n == 0x1680
    || 0x2000 <= n <= 0x200A
    || n == 0x2028 || n == 0x2029 || n == 0x202F || n == 0x205F || n == 0x3000
  }

  predicate AllSpace(s: string) {
    forall i :: 0 <= i < |s| ==> IsSpace(s[i])
  }

  /** How many whitespace characters `s.lstrip()` drops from the front. */
  function LeadingSpace(s: string): (n: nat)
    ensures n <= |s|
    ensures forall i :: 0 <= i < n ==> IsSpace(s[i])
    ensures n < |s| ==> !IsSpace(s[n])
  {
    if |s| > 0 && IsSpace(s[0]) then 1 + LeadingSpace(s[1..]) else 0
  }

  /** How many whitespace characters `s.rstrip()` drops from the back. */
  function TrailingSpace(s: string): (n: nat)
    ensures n <= |s|
    ensures forall i :: |s| - n <= i < |s| ==> IsSpace(s[i])
    ensures n < |s| ==> !IsSpace(s[|s| - n - 1])
  {
    if |s| > 0 && IsSpace(s[|s| - 1]) then 1 + TrailingSpace(s[..|s| - 1]) else 0
  }

  /** `s.strip()`: `lstrip()` then `rstrip()`. */
  function Strip(s: string): (r: string)
    ensures |r| <= |s| && LeadingSpace(s) + |r| <= |s|
    ensures r == [] || (!IsSpace(r[0]) && !IsSpace(r[|r| - 1]))
  {
    var t := s[LeadingSpace(s)..];
    t[..|t| - TrailingSpace(t)]
  }

  /** `strip()` keeps the characters after the leading whitespace, up to
      the trailing whitespace. */
  lemma StripSlice(s: string)
    ensures LeadingSpace(s) + |Strip(s)| <= |s|
    ensures Strip(s) == s[LeadingSpace(s)..LeadingSpace(s) + |Strip(s)|]
  {
  }

  lemma StripTail(s: string)
    ensures LeadingSpace(s) + |Strip(s)| <= |s|
    ensures AllSpace(s[LeadingSpace(s) + |Strip(s)|..])
  {
    var k := LeadingSpace(s);
    var t := s[k..];
    var tail := s[k + |Strip(s)|..];
    forall i | 0 <= i < |tail| ensures IsSpace(tail[i]) {
      assert tail[i] == t[|Strip(s)| + i];
    }
  }

  /** What `strip()` keeps is an infix of `s` with only whitespace on
      either side of it. */
  lemma StripIsInfix(s: string)
    ensures exists k :: 0 <= k <= |s| - |Strip(s)| && Strip(s) == s[k..k + |Strip(s)|]
                        && AllSpace(s[..k]) && AllSpace(s[k + |Strip(s)|..])
  {
    var k := LeadingSpace(s);
    StripSlice(s);
    StripTail(s);
    assert AllSpace(s[..k]);
  }

  /** Leading whitespace followed by a character that is not whitespace is
      exactly what `lstrip()` drops. */
  lemma LeadingSpaceOf(before: string, s: string)
    requires AllSpace(before)
    requires s == [] || !IsSpace(s[0])
    ensures LeadingSpace(before + s) == |before|
  {
    var u := before + s;
    assert forall j :: 0 <= j < |before| ==> u[j] == before[j];
    assert |s| > 0 ==> u[|before|] == s[0];
  }

  lemma TrailingSpaceOf(s: string, after: string)
    requires AllSpace(after)
    requires s == [] || !IsSpace(s[|s| - 1])
    ensures TrailingSpace(s + after) == |after|
  {
    var u := s + after;
    assert forall j :: |s| <= j < |u| ==> u[j] == after[j - |s|];
    assert |s| > 0 ==> u[|s| - 1] == s[|s| - 1];
  }

  /** A string without surrounding whitespace is left alone by `strip()`. */
  lemma StripTrimmed(s: string)
    requires s == [] || (!IsSpace(s[0]) && !IsSpace(s[|s| - 1]))
    ensures Strip(s) == s
  {
    LeadingSpaceOf([], s);
    TrailingSpaceOf(s, []);
    assert [] + s == s && s + [] == s;
  }

  /** Stripping twice is stripping once. */
  lemma StripIdempotent(s: string)
    ensures Strip(Strip(s)) == Strip(s)
  {
    StripTrimmed(Strip(s));
  }

  /** Whitespace added around a string that neither starts nor ends with
      whitespace is exactly what `strip()` removes. */
  lemma StripAroundTrimmed(before: string, s: string, after: string)
    requires AllSpace(before) && AllSpace(after)
    requires s == [] || (!IsSpace(s[0]) && !IsSpace(s[|s| - 1]))
    ensures Strip(before + s + after) == s
  {
    var u := before + s + after;
    if s == [] {
      assert u == before + after;
      assert AllSpace(u) by { forall i | 0 <= i < |u| ensures IsSpace(u[i]) { if i >= |before| { assert u[i] == after[i - |before|]; } } }
      LeadingSpaceOf(u, []);
      assert u + [] == u;
    } else {
      assert u == before + (s + after);
      LeadingSpaceOf(before, s + after);
      var t := u[|before|..];
      assert t == s + after;
      TrailingSpaceOf(s, after);
    }
  }
}

/** Python's `int(s)` and `str(n)` in base 10. */
module Numerals {
  import opened Wrappers
  import opened Whitespace

  predicate IsDigit(c: char) {
    '0' <= c <= '9'
  }

  predicate AllDigits(s: string) {
    forall i :: 0 <= i < |s| ==> IsDigit(s[i])
  }

  /** The value of a string of decimal digits, most significant first. */
  function DigitsValue(s: string): nat
    requires AllDigits(s)
  {
    if |s| == 0 then 0
    else DigitsValue(s[..|s| - 1]) * 10 + (s[|s| - 1] as int - '0' as int)
  }

  /** CPython's default limit on the digits `int()` reads and `str()`
      writes (`sys.int_info.default_max_str_digits`); past it both raise
      `ValueError`. */
  const MaxStrDigits: nat := 4300

  /** A stripped numeral without its sign, if it has one. */
  function Unsigned(t: string): string {
    if |t| > 0 && (t[0] == '-' || t[0] == '+') then t[1..] else t
  }

  /** The whitespace `int()` skips around a numeral. CPython first turns
      every non-ASCII whitespace character into a space and then skips only
      the ASCII whitespace TAB..CR and SPACE, so the controls FS..US, which
      `strip()` removes, make `int()` fail. */
  predicate IntSpace(c: char) {
    IsSpace(c) && !(0x1C <= c as int <= 0x1F)
  }

  predicate AllIntSpace(s: string) {
    forall i :: 0 <= i < |s| ==> IntSpace(s[i])
  }

  /** Python's `int(s)` in base 10: surrounding whitespace that `int()`
      skips is ignored, an optional `+` or `-` sign is followed by one to
      4300 decimal digits, and the value is that of the digits, negated
      after a `-`; any other string raises `ValueError`, modelled as `None`.
      The text kept is the one `strip()` keeps; `int()` fails when what
      `strip()` removed holds one of the controls FS..US. */
  function ParseInt(s: string): (r: Option<int>)
    ensures var t, k := Strip(s), LeadingSpace(s); var d := Unsigned(t);
            r.Some? <==> && AllIntSpace(s[..k]) && AllIntSpace(s[k + |t|..])
                         && 1 <= |d| <= MaxStrDigits && AllDigits(d)
    ensures r.Some? ==>
              var t := Strip(s);
              r.value == if t[0] == '-' then -(DigitsValue(Unsigned(t)) as int) else DigitsValue(Unsigned(t))
  {
    var t, k := Strip(s), LeadingSpace(s);
    ParseSignedUnsigned(t);
    if AllIntSpace(s[..k]) && AllIntSpace(s[k + |t|..]) then ParseSigned(t) else None
  }

  /** The sign and the digits after it, as `ParseSigned` reads them. */
  lemma ParseSignedUnsigned(t: string)
    ensures var d := Unsigned(t); ParseSigned(t).Some? <==> 1 <= |d| <= MaxStrDigits && AllDigits(d)
    ensures ParseSigned(t).Some? ==>
              ParseSigned(t).value == if t[0] == '-' then -(DigitsValue(Unsigned(t)) as int) else DigitsValue(Unsigned(t))
  {
  }

  /** `int()` reads a numeral surrounded by the whitespace it skips as that
      numeral alone. */
  lemma ParseIntAround(before: string, t: string, after: string)
    requires AllIntSpace(before) && AllIntSpace(after)
    requires t == [] || (!IsSpace(t[0]) && !IsSpace(t[|t| - 1]))
    ensures ParseInt(before + t + after) == ParseSigned(t)
  {
    var s := before + t + after;
    assert AllSpace(before) && AllSpace(after);
    StripAroundTrimmed(before, t, after);
    if t == [] {
      ParseIntBlank(before, after);
    } else {
      assert s == before + (t + after);
      LeadingSpaceOf(before, t + after);
      assert s[..|before|] == before;
      assert s[|before| + |t|..] == after;
    }
  }

  lemma ParseIntBlank(before: string, after: string)
    requires AllIntSpace(before) && AllIntSpace(after)
    ensures ParseInt(before + after) == ParseSigned([])
  {
    var s := before + after;
    assert AllIntSpace(s) by {
      forall i | 0 <= i < |s| ensures IntSpace(s[i]) {
        if i >= |before| { assert s[i] == after[i - |before|]; }
      }
    }
    assert AllSpace(s);
    LeadingSpaceOf(s, []);
    assert s + [] == s;
    assert s[..|s|] == s && s[|s|..] == [];
  }

  /** `int()` reads a string without surrounding whitespace as it is. */
  lemma ParseIntTrimmed(s: string)
    requires s == [] || (!IsSpace(s[0]) && !IsSpace(s[|s| - 1]))
    ensures ParseInt(s) == ParseSigned(s)
  {
    StripTrimmed(s);
    assert LeadingSpace(s) == 0;
    assert s[..0] == [] && s[|s|..] == [];
  }

  /** The sign-and-digits part of `int(s)`, after whitespace is stripped. */
  function ParseSigned(t: string): (r: Option<int>)
  {
    if |t| > 0 && (t[0] == '-' || t[0] == '+') then
      if 1 < |t| <= MaxStrDigits + 1 && AllDigits(t[1..]) then
        var v: int := DigitsValue(t[1..]);
        Some(if t[0] == '-' then -v else v)
      else
        None
    else if 0 < |t| <= MaxStrDigits && AllDigits(t) then
      Some(DigitsValue(t))
    else
      None
  }

  function DigitChar(d: nat): (c: char)
    requires d < 10
    ensures IsDigit(c)
  {
    ('0' as int + d) as char
  }

  /** `str(n)` for a natural number: its shortest decimal spelling. */
  function FormatNat(n: nat): (r: string)
    ensures |r| >= 1 && AllDigits(r)
    ensures r[0] == '0' ==> r == "0"
  {
    if n < 10 then [DigitChar(n)] else FormatNat(n / 10) + [DigitChar(n % 10)]
  }

  /** `str(n)` for any integer: a minus sign before the digits of `-n` when
      `n` is negative. */
  function FormatInt(n: int): (r: string)
    ensures |r| >= 1
    ensures r[0] == '-' <==> n < 0
    ensures var d := if n < 0 then r[1..] else r;
            |d| >= 1 && AllDigits(d) && (d[0] == '0' ==> d == "0")
  {
    if n < 0 then "-" + FormatNat(-n) else FormatNat(n)
  }

  lemma {:induction false} DigitsValueFormatNat(n: nat)
    ensures DigitsValue(FormatNat(n)) == n
  {
    if n >= 10 {
      var s := FormatNat(n);
      assert s[..|s| - 1] == FormatNat(n / 10);
      DigitsValueFormatNat(n / 10);
    }
  }

  /** How many digits `str(n)` writes. */
  function DigitCount(n: int): nat {
    |FormatNat(if n < 0 then -n else n)|
  }

  lemma ParseSignedFormatInt(n: int)
    requires DigitCount(n) <= MaxStrDigits
    ensures ParseSigned(FormatInt(n)) == Some(n)
  {
    var s := FormatInt(n);
    if n < 0 {
      assert s[1..] == FormatNat(-n);
      DigitsValueFormatNat(-n);
    } else {
      DigitsValueFormatNat(n);
    }
  }

  /** `int(str(n)) == n`: formatting an integer and parsing it back is the
      identity, so the spelling `str` produces is one `int` accepts. Past
      4300 digits `str(n)` itself raises. */
  lemma ParseFormatInt(n: int)
    requires DigitCount(n) <= MaxStrDigits
    ensures ParseInt(FormatInt(n)) == Some(n)
  {
    var s := FormatInt(n);
    assert IsDigit(s[|s| - 1]);
    ParseIntTrimmed(s);
    ParseSignedFormatInt(n);
  }
}

/** Single hex digits and the two digits of one byte, as `binascii`
    writes and reads them. */
module Hex {
  import opened Wrappers
  import opened Bits

  /** The lower-case hex digit of a value below 16. */
  function HexDigit(v: nat): (c: char)
    requires v < 16
    ensures HexValue(c) == Some(v)
  {
    if v < 10 then ('0' as int + v) as char else ('a' as int + v - 10) as char
  }

  /** The value of a hex digit of either case; `None` for any other character. */
  function HexValue(c: char): (r: Option<nat>)
    ensures r.Some? ==> r.value < 16
  {
    if '0' <= c <= '9' then Some(c as int - '0' as int)
    else if 'a' <= c <= 'f' then Some(c as int - 'a' as int + 10)
    else if 'A' <= c <= 'F' then Some(c as int - 'A' as int + 10)
    else None
  }

  predicate IsHexDigit(c: char) {
    HexValue(c).Some?
  }

  predicate AllHex(s: string) {
    forall i :: 0 <= i < |s| ==> IsHexDigit(s[i])
  }

  /** The digit a hex string uses when written in lower case. */
  function LowerHex(c: char): char {
    if 'A' <= c <= 'F' then (c as int - 'A' as int + 'a' as int) as char else c
  }

  predicate IsLowerHexDigit(c: char) {
    '0' <= c <= '9' || 'a' <= c <= 'f'
  }

  /** The two characters `hexlify` writes for one byte: high nibble first. */
  function ByteHex(x: Byte): (s: string)
    ensures |s| == 2 && IsLowerHexDigit(s[0]) && IsLowerHexDigit(s[1])
    ensures HexValue(s[0]) == Some(x as int / 16) && HexValue(s[1]) == Some(x as int % 16)
  {
    [HexDigit(x as int / 16), HexDigit(x as int % 16)]
  }

  /** Reading back the two digits written for a byte gives that byte. */
  lemma ByteHexValue(x: Byte)
    ensures (HexValue(ByteHex(x)[0]).value * 16 + HexValue(ByteHex(x)[1]).value) as Byte == x
  {
  }

  /** Reading a hex digit and writing its value back gives the digit in lower case. */
  lemma HexDigitOfValue(c: char)
    requires IsHexDigit(c)
    ensures HexDigit(HexValue(c).value) == LowerHex(c)
  {
  }

}

/** `binascii.hexlify` and `binascii.unhexlify` over Python strings: two
    lower-case hex digits per byte out, digits of either case in. */
module Binascii {
  import opened Wrappers
  import opened Bits
  import opened Encoding
  import opened Hex

  function Lower(s: string): (r: string)
    ensures |r| == |s|
    ensures forall i :: 0 <= i < |s| ==> r[i] == LowerHex(s[i])
  {
    if |s| == 0 then [] else [LowerHex(s[0])] + Lower(s[1..])
  }

  /** `hexlify(b).decode()`: byte `i` becomes characters `2i` and `2i + 1`,
      its two lower-case hex digits. */
  function Hexlify(b: Bytes): (s: string)
    ensures |s| == 2 * |b|
    ensures forall j :: 0 <= j < |s| ==> IsLowerHexDigit(s[j])
    ensures forall i :: 0 <= i < |b| ==> s[2 * i..2 * i + 2] == ByteHex(b[i])
  {
    if |b| == 0 then []
    else
      var rest := Hexlify(b[1..]);
      var s := ByteHex(b[0]) + rest;
      assert forall i :: 1 <= i < |b| ==> s[2 * i..2 * i + 2] == rest[2 * (i - 1)..2 * (i - 1) + 2];
      s
  }

  /** `unhexlify(s)`: `None` stands for the `binascii.Error` raised on an
      odd-length string or on a character that is not a hex digit. */
  function Unhexlify(s: string): (r: Option<Bytes>)
    ensures r.Some? <==> |s| % 2 == 0 && AllHex(s)
    ensures r.Some? ==> 2 * |r.value| == |s|
    decreases |s|
  {
    if |s| % 2 != 0 then None
    else if |s| == 0 then Some([])
    else
      var hi, lo, rest := HexValue(s[0]), HexValue(s[1]), Unhexlify(s[2..]);
      if hi.Some? && lo.Some? && rest.Some? then
        Some([(hi.value * 16 + lo.value) as Byte] + rest.value)
      else
        assert !IsHexDigit(s[0]) || !IsHexDigit(s[1]) || !AllHex(s[2..]);
        None
  }

  /** `unhexlify` reads two hex digits in front of a decodable string as
      one byte in front of that string's bytes. */
  lemma UnhexlifyCons(hi: char, lo: char, t: string)
    requires IsHexDigit(hi) && IsHexDigit(lo) && Unhexlify(t).Some?
    ensures Unhexlify([hi, lo] + t)
            == Some([(HexValue(hi).value * 16 + HexValue(lo).value) as Byte] + Unhexlify(t).value)
  {
    var s := [hi, lo] + t;
    assert s[0] == hi && s[1] == lo && s[2..] == t;
  }

  /** `unhexlify` reads the two digits written for a byte, in front of a
      decodable string, as that byte in front of its bytes. */
  lemma UnhexlifyByte(x: Byte, t: string)
    requires Unhexlify(t).Some?
    ensures Unhexlify(ByteHex(x) + t) == Some([x] + Unhexlify(t).value)
  {
    var h := ByteHex(x);
    assert h == [h[0], h[1]];
    UnhexlifyCons(h[0], h[1], t);
    ByteHexValue(x);
  }

  lemma HexlifyCons(b: Bytes)
    requires |b| > 0
    ensures Hexlify(b) == ByteHex(b[0]) + Hexlify(b[1..])
  {
  }

  /** `unhexlify(hexlify(b)) == b`. */
  lemma {:induction false} UnhexlifyHexlify(b: Bytes)
    ensures Unhexlify(Hexlify(b)) == Some(b)
  {
    if |b| > 0 {
      UnhexlifyHexlify(b[1..]);
      UnhexlifyByte(b[0], Hexlify(b[1..]));
      HexlifyCons(b);
      assert b == [b[0]] + b[1..];
    }
  }

  /** The first byte `unhexlify` reads is the one its first two digits spell. */
  lemma UnhexlifyHead(s: string)
    requires |s| > 0 && Unhexlify(s).Some?
    ensures IsHexDigit(s[0]) && IsHexDigit(s[1]) && Unhexlify(s[2..]).Some?
    ensures Unhexlify(s).value
            == [(HexValue(s[0]).value * 16 + HexValue(s[1]).value) as Byte] + Unhexlify(s[2..]).value
  {
  }

  lemma LowerCons(s: string)
    requires |s| >= 2
    ensures Lower(s) == [LowerHex(s[0]), LowerHex(s[1])] + Lower(s[2..])
  {
    var t := s[1..];
    assert t[0] == s[1] && t[1..] == s[2..];
    assert Lower(t) == [LowerHex(s[1])] + Lower(s[2..]);
  }

  /** Writing back the byte two hex digits spell gives those digits in lower case. */
  lemma ByteHexOfDigits(hi: char, lo: char)
    requires IsHexDigit(hi) && IsHexDigit(lo)
    ensures ByteHex((HexValue(hi).value * 16 + HexValue(lo).value) as Byte) == [LowerHex(hi), LowerHex(lo)]
  {
    var h, l := HexValue(hi).value, HexValue(lo).value;
    var x := (h * 16 + l) as Byte;
    assert x as int / 16 == h && x as int % 16 == l;
    HexDigitOfValue(hi);
    HexDigitOfValue(lo);
  }

  /** Whatever `unhexlify` accepts, `hexlify` spells back exactly, up to the
      case of the letters: decoding loses nothing but upper case. */
  lemma {:induction false} HexlifyUnhexlify(s: string)
    requires Unhexlify(s).Some?
    ensures Hexlify(Unhexlify(s).value) == Lower(s)
    decreases |s|
  {
    if |s| > 0 {
      var b := Unhexlify(s).value;
      UnhexlifyHead(s);
      ByteHexOfDigits(s[0], s[1]);
      HexlifyUnhexlify(s[2..]);
      HexlifyCons(b);
      assert b[1..] == Unhexlify(s[2..]).value;
      LowerCons(s);
    }
  }
}

/** The XOR obfuscation of services.py: `_encode_data` and `_decrypt_data`.
    The payload is XORed byte by byte with the UTF-8 bytes of the key, the
    key being repeated as often as needed, and travels as hex. */
module Codec {
  import opened Wrappers
  import opened Bits
  import opened Encoding
  import opened Hex
  import opened Binascii

  /** What a decryption yields before the caller's lenient UTF-8 decode:
      either the input string itself (no encryption configured) or the
      deciphered bytes. */
  datatype Payload = Plain(text: string) | Deciphered(bytes: Bytes)

  /** XOR of `data` with the key repeated from key position `start`. */
  function XorFrom(data: Bytes, key: Bytes, start: nat): (r: Bytes)
    requires |key| > 0
    ensures |r| == |data|
    ensures forall i :: 0 <= i < |data| ==> r[i] == Xor(data[i], key[(start + i) % |key|])
    decreases |data|
  {
    if |data| == 0 then []
    else [Xor(data[0], key[start % |key|])] + XorFrom(data[1..], key, start + 1)
  }

  /** The loop `for i, byte in enumerate(data): out.append(byte ^ key[i % len(key)])`:
      byte `i` of the output is byte `i` of the input XOR key byte `i mod |key|`,
      whether the key is shorter than, as long as, or longer than the data. */
  function CyclicXor(data: Bytes, key: Bytes): (r: Bytes)
    requires |key| > 0
    ensures |r| == |data|
    ensures forall i :: 0 <= i < |data| ==> r[i] == Xor(data[i], key[i % |key|])
  {
    XorFrom(data, key, 0)
  }

  /** Applying the same cyclic XOR twice gives the data back. */
  lemma CyclicXorInvolutive(data: Bytes, key: Bytes)
    requires |key| > 0
    ensures CyclicXor(CyclicXor(data, key), key) == data
  {
    var once := CyclicXor(data, key);
    var twice := CyclicXor(once, key);
    forall i | 0 <= i < |data|
      ensures twice[i] == data[i]
    {
      XorInvolutive(data[i], key[i % |key|]);
    }
  }

  /** `_encode_data(data, encrypted, key)`. Without encryption the text is
      returned as it is; with encryption and an empty key there is no result
      (`None`); otherwise the result is the lower-case hex of the cyclic XOR
      of the UTF-8 bytes of data and key. */
  function EncodeData(data: string, encrypted: bool, key: string): (r: Option<string>)
    ensures !encrypted ==> r == Some(data)
    ensures encrypted && key == "" ==> r == None
    ensures encrypted && key != "" ==>
              && r.Some?
              && |r.value| == 2 * |Utf8(data)|
              && (forall j :: 0 <= j < |r.value| ==> IsLowerHexDigit(r.value[j]))
              && Unhexlify(r.value) == Some(CyclicXor(Utf8(data), Utf8(key)))
  {
    if !encrypted then Some(data)
    else if key == "" then None
    else
      var cipher := CyclicXor(Utf8(data), Utf8(key));
      UnhexlifyHexlify(cipher);
      Some(Hexlify(cipher))
  }

  /** `_decrypt_data(hex_data, encrypted, key)` (the body, taking the three
      arguments its caller passes). Without encryption the text is returned
      as it is; with encryption, an empty key, an odd-length string or a
      character that is not a hex digit gives `None`; otherwise the result
      is the deciphered bytes, and enciphering them again spells the input
      back (in lower case). */
  function DecryptData(hexData: string, encrypted: bool, key: string): (r: Option<Payload>)
    ensures !encrypted ==> r == Some(Plain(hexData))
    ensures encrypted && key == "" ==> r == None
    ensures encrypted && key != "" ==>
              (r.Some? <==> |hexData| % 2 == 0 && AllHex(hexData))
    ensures encrypted && r.Some? ==>
              && r.value.Deciphered?
              && 2 * |r.value.bytes| == |hexData|
              && Hexlify(CyclicXor(r.value.bytes, Utf8(key))) == Lower(hexData)
  {
    if !encrypted then Some(Plain(hexData))
    else if key == "" then None
    else if |hexData| % 2 != 0 then None
    else
      match Unhexlify(hexData)
      case None => None
      case Some(dataBytes) =>
        var plain := CyclicXor(dataBytes, Utf8(key));
        CyclicXorInvolutive(dataBytes, Utf8(key));
        HexlifyUnhexlify(hexData);
        Some(Deciphered(plain))
  }

  /** Decrypting what `_encode_data` produced, with the same settings, gives
      back the UTF-8 bytes of the original text (or the text itself when
      encryption is off). */
  lemma EncodeDecryptRoundTrip(data: string, encrypted: bool, key: string)
    requires EncodeData(data, encrypted, key).Some?
    ensures DecryptData(EncodeData(data, encrypted, key).value, encrypted, key)
            == Some(if encrypted then Deciphered(Utf8(data)) else Plain(data))
  {
    if encrypted {
      var cipher := CyclicXor(Utf8(data), Utf8(key));
      CyclicXorInvolutive(Utf8(data), Utf8(key));
      UnhexlifyHexlify(cipher);
    }
  }

  /** Encoding is injective under a fixed key: two texts with the same
      encoding are the same text, as far as their UTF-8 bytes go. */
  lemma EncodeDataInjective(a: string, b: string, key: string)
    requires key != ""
    requires EncodeData(a, true, key) == EncodeData(b, true, key)
    ensures Utf8(a) == Utf8(b)
  {
    EncodeDecryptRoundTrip(a, true, key);
    EncodeDecryptRoundTrip(b, true, key);
  }
}

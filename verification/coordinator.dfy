/** The decode step of `CandyBiancaCoordinator._async_update_data`
    (coordinator.py): the polled response text, once stripped, is either
    deciphered (encryption on and a non-empty key) or used as it is, before
    it goes to the JSON parser. */
module Coordinator {
  import opened Wrappers
  import opened Encoding
  import opened Whitespace
  import opened Hex
  import opened Binascii
  import opened Codec

  /** The decode step, a pure function of the response text and the
      configured encryption flag and key. `None` is the update returning
      `None` on an odd-length or non-hex response. */
  function DecodeResponse(text: string, encrypted: bool, key: string): (r: Option<Payload>)
    ensures !(encrypted && key != "") ==> r == Some(Plain(Strip(text)))
    ensures encrypted && key != "" ==>
              (r.Some? <==> |Strip(text)| % 2 == 0 && AllHex(Strip(text)))
    ensures encrypted && key != "" && r.Some? ==>
              && r.value.Deciphered?
              && 2 * |r.value.bytes| == |Strip(text)|
              && Hexlify(CyclicXor(r.value.bytes, Utf8(key))) == Lower(Strip(text))
  {
    var hexData := Strip(text);
    if encrypted && key != "" then
      var keyBytes := Utf8(key);
      if |hexData| % 2 != 0 then None
      else
        match Unhexlify(hexData)
        case None => None
        case Some(dataBytes) =>
          var plain := XorFrom(dataBytes, keyBytes, 0);
          CyclicXorInvolutive(dataBytes, keyBytes);
          HexlifyUnhexlify(hexData);
          Some(Deciphered(plain))
    else
      Some(Plain(hexData))
  }

  /** With encryption on and a non-empty key, the coordinator's inline
      decryption and the services' `_decrypt_data` agree, once surrounding
      whitespace is stripped from the response. */
  lemma DecodeAgreesWithDecrypt(text: string, key: string)
    requires key != ""
    ensures DecodeResponse(text, true, key) == DecryptData(Strip(text), true, key)
  {
  }

  /** The two code paths part ways on an empty key: the coordinator passes
      the text through as if unencrypted, `_decrypt_data` gives `None`. */
  lemma EmptyKeyPathsDiffer(text: string)
    ensures DecodeResponse(text, true, "") == Some(Plain(Strip(text)))
    ensures DecryptData(Strip(text), true, "") == None
  {
  }

  /** What the device sends for an encrypted status is decoded back to the
      UTF-8 bytes of that status, whatever whitespace surrounds it. */
  lemma DecodeEncodedStatus(status: string, key: string, before: string, after: string)
    requires key != ""
    requires AllSpace(before) && AllSpace(after)
    ensures DecodeResponse(before + EncodeData(status, true, key).value + after, true, key)
            == Some(Deciphered(Utf8(status)))
  {
    var hex := EncodeData(status, true, key).value;
    StripAroundTrimmed(before, hex, after);
    DecodeAgreesWithDecrypt(before + hex + after, key);
    EncodeDecryptRoundTrip(status, true, key);
  }
}

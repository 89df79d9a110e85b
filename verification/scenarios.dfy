/** Worked cases of the codec, the remaining-time conversion and the
    program tables, each stated for concrete inputs. */
module Scenarios {
  import opened Wrappers
  import opened Bits
  import opened Encoding
  import opened Whitespace
  import opened Numerals
  import opened Binascii
  import opened Codec
  import Sensor
  import Programs

  lemma Hex0102()
    ensures Hexlify([0x01, 0x02]) == "0102" && Unhexlify("0102") == Some([0x01, 0x02])
  {
    var cipher: Bytes := [0x01, 0x02];
    assert cipher[1..] == [0x02];
    UnhexlifyHexlify(cipher);
  }

  lemma Utf8Examples()
    ensures Utf8("A") == [0x41] && Utf8("@C") == [0x40, 0x43]
  {
    assert "@C"[1..] == "C";
  }

  lemma XorBytesWithA()
    ensures Xor(0x01, 0x41) == 0x40 && Xor(0x02, 0x41) == 0x43
  {
    assert XorBits(0, 0, 1) == 0;
    assert XorBits(0, 1, 2) == 1;
    assert XorBits(0, 2, 3) == 2;
    assert XorBits(0, 4, 4) == 4;
    assert XorBits(0, 8, 5) == 8;
    assert XorBits(0, 16, 6) == 16;
    assert XorBits(0, 32, 7) == 32 && XorBits(1, 32, 7) == 33;
    assert XorBits(1, 65, 8) == 64 && XorBits(2, 65, 8) == 67;
  }

  lemma XorWithA()
    ensures CyclicXor([0x01, 0x02], Utf8("A")) == [0x40, 0x43]
    ensures CyclicXor(Utf8("@C"), Utf8("A")) == [0x01, 0x02]
  {
    Utf8Examples();
    XorBytesWithA();
    var data: Bytes := [0x01, 0x02];
    var key: Bytes := [0x41];
    var r := CyclicXor(data, key);
    assert r[0] == Xor(0x01, 0x41) && r[1] == Xor(0x02, 0x41);
    assert r == [0x40, 0x43];
    CyclicXorInvolutive(data, key);
  }

  /** The hex text "0102" under the key "A" (byte 0x41) deciphers to the
      bytes 0x40 0x43, that is "@C". */
  lemma DecryptWithA()
    ensures DecryptData("0102", true, "A") == Some(Deciphered([0x40, 0x43]))
  {
    Hex0102();
    XorWithA();
  }

  /** Enciphering "@C" with the key "A" gives back "0102". */
  lemma EncodeWithA()
    ensures EncodeData("@C", true, "A") == Some("0102")
  {
    Hex0102();
    XorWithA();
  }

  lemma Format125()
    ensures FormatInt(125) == "125"
  {
    assert FormatInt(12) == "12";
  }

  lemma Parse125()
    ensures ParseInt("125") == Some(125)
  {
    Format125();
    ParseFormatInt(125);
  }

  lemma ParseMinus5()
    ensures ParseInt("-5") == Some(-5)
  {
    assert FormatInt(-5) == "-5";
    ParseFormatInt(-5);
  }

  lemma Shown2h5()
    ensures FormatInt(2) + " hours " + FormatInt(5) + " minutes" == "2 hours 5 minutes"
  {
    assert FormatInt(2) == "2" && FormatInt(5) == "5";
  }

  lemma ShownMinus1h55()
    ensures FormatInt(-1) + " hours " + FormatInt(55) + " minutes" == "-1 hours 55 minutes"
  {
    assert FormatInt(-1) == "-1" && FormatInt(55) == "55";
  }

  /** 125 minutes read as two hours and five minutes. */
  lemma RemTime125()
    ensures Sensor.Translate(Sensor.RemTime, Some("125")) == Some("2 hours 5 minutes")
  {
    Parse125();
    Sensor.RemTimeMinutes("125", 125, 2, 5);
    Shown2h5();
  }

  /** A count of -5 minutes reads, by floor division, as -1 hours and 55 minutes. */
  lemma RemTimeMinus5()
    ensures Sensor.Translate(Sensor.RemTime, Some("-5")) == Some("-1 hours 55 minutes")
  {
    ParseMinus5();
    Sensor.RemTimeMinutes("-5", -5, -1, 55);
    ShownMinus1h55();
  }

  lemma ParseSignedAbc()
    ensures ParseSigned("abc") == None
  {
    assert !IsDigit("abc"[0]);
  }

  lemma ParseAbc()
    ensures ParseInt("abc") == None
  {
    StripTrimmed("abc");
    ParseSignedAbc();
  }

  /** A value that is not an integer reads "Error". */
  lemma RemTimeAbc()
    ensures Sensor.Translate(Sensor.RemTime, Some("abc")) == Some("Error")
  {
    ParseAbc();
    Sensor.RemTimeError(Some("abc"));
  }

  /** The file separator FS is whitespace to `strip()` but not to `int()`. */
  lemma ParseAfterFileSeparator()
    ensures Strip("\U{1c}5") == "5"
    ensures ParseInt("\U{1c}5") == None
  {
    var s := "\U{1c}5";
    assert IsSpace(s[0]) && !IsSpace(s[1]);
    assert s[1..] == "5";
    assert LeadingSpace(s[1..]) == 0;
    assert s[..LeadingSpace(s)] == s[..1];
    assert !IntSpace(s[..1][0]);
  }

  /** So a remaining time after a file separator reads "Error". */
  lemma RemTimeAfterFileSeparator()
    ensures Sensor.Translate(Sensor.RemTime, Some("\U{1c}125")) == Some("Error")
  {
    var s := "\U{1c}125";
    assert IsSpace(s[0]) && !IsSpace(s[1]);
    assert s[1..] == "125";
    assert LeadingSpace(s[1..]) == 0;
    assert s[..LeadingSpace(s)] == s[..1];
    assert !IntSpace(s[..1][0]);
    Sensor.RemTimeError(Some(s));
  }

  /** "Eco 45°C" selects P8 on both device types, and the Program sensor
      shows P8 as "ECO 45°C". */
  lemma EcoProgramExample()
    ensures Programs.UntranslateProgram("Eco 45°C", Sensor.Dishwasher) == Some("P8")
    ensures Programs.UntranslateProgram("Eco 45°C", Sensor.WashingMachine) == Some("P8")
    ensures Sensor.Translate(Sensor.Program, Some("P8")) == Some("ECO 45°C")
  {
  }
}

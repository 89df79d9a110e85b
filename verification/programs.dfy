/** The write path of services.py (`async_send_program`): a program's
    display name is mapped back to the appliance's program code
    (`_untranslate_program`), put in the command string with the option
    flags, and encoded for the appliance's write endpoint. */
module Programs {
  import opened Wrappers
  import opened Encoding
  import opened Codec
  import Sensor

  // ---------------------------------------------------------------------
  // _untranslate_program
  // ---------------------------------------------------------------------

  /** Display name to program code, as the dishwasher's program list has it. */
  const DishwasherPrograms: map<string, string> := map[
    "Zoom 39mins 60°C" := "P19",
    "Intensive 75°C" := "P2",
    "Universal 60°C" := "P5",
    "PreWash 5mins" := "P12",
    "Eco 45°C" := "P8"
  ]

  /** Display name to program code, as the washing machine's program list has it. */
  const WasherPrograms: map<string, string> := map[
    "Intensive 75°C" := "P2",
    "Normal 60°C" := "P5",
    "Eco 45°C" := "P8",
    "Zoom 60°C" := "P19",
    "Pre-Wash" := "P12"
  ]

  /** The program codes the appliance knows. */
  const ProgramCodes: set<string> := {"P2", "P5", "P8", "P12", "P19"}

  function ProgramMapping(deviceType: string): map<string, string> {
    if deviceType == Sensor.Dishwasher then DishwasherPrograms
    else if deviceType == Sensor.WashingMachine then WasherPrograms
    else map[]
  }

  /** `_untranslate_program(program, device_type)`: the program code for a
      display name, `None` for a name the device type's list lacks and for
      any device type other than the two known ones. */
  function UntranslateProgram(program: string, deviceType: string): (r: Option<string>)
    ensures deviceType != Sensor.Dishwasher && deviceType != Sensor.WashingMachine ==> r == None
    ensures deviceType == Sensor.Dishwasher ==>
              r == if program == "Zoom 39mins 60°C" then Some("P19")
                   else if program == "Intensive 75°C" then Some("P2")
                   else if program == "Universal 60°C" then Some("P5")
                   else if program == "PreWash 5mins" then Some("P12")
                   else if program == "Eco 45°C" then Some("P8")
                   else None
    ensures deviceType == Sensor.WashingMachine ==>
              r == if program == "Intensive 75°C" then Some("P2")
                   else if program == "Normal 60°C" then Some("P5")
                   else if program == "Eco 45°C" then Some("P8")
                   else if program == "Zoom 60°C" then Some("P19")
                   else if program == "Pre-Wash" then Some("P12")
                   else None
    ensures r.Some? ==> r.value in ProgramCodes
  {
    Get(ProgramMapping(deviceType), program)
  }

  /** Each list names every program code exactly once: untranslation is a
      bijection between a known device type's names and the five codes. */
  lemma UntranslateBijective(deviceType: string, a: string, b: string, code: string)
    requires deviceType == Sensor.Dishwasher || deviceType == Sensor.WashingMachine
    ensures UntranslateProgram(a, deviceType).Some? && UntranslateProgram(a, deviceType) == UntranslateProgram(b, deviceType)
            ==> a == b
    ensures code in ProgramCodes ==> exists name :: UntranslateProgram(name, deviceType) == Some(code)
  {
    if code in ProgramCodes {
      var names := if deviceType == Sensor.Dishwasher
        then map["P19" := "Zoom 39mins 60°C", "P2" := "Intensive 75°C", "P5" := "Universal 60°C",
                 "P12" := "PreWash 5mins", "P8" := "Eco 45°C"]
        else map["P2" := "Intensive 75°C", "P5" := "Normal 60°C", "P8" := "Eco 45°C",
                 "P19" := "Zoom 60°C", "P12" := "Pre-Wash"];
      assert UntranslateProgram(names[code], deviceType) == Some(code);
    }
  }

  // ---------------------------------------------------------------------
  // Reading back what was written
  // ---------------------------------------------------------------------

  /** On the dishwasher, a program chosen by name and then shown by the
      Program sensor reads as the same name for Zoom, Universal and PreWash,
      but not for Intensive (code P2 shows as "P1 75°C") nor Eco (code P8
      shows as "ECO 45°C"). */
  lemma DishwasherReadBack(name: string)
    requires name in DishwasherPrograms
    ensures Sensor.Translate(Sensor.Program, UntranslateProgram(name, Sensor.Dishwasher)) == Some(name)
            <==> name in {"Zoom 39mins 60°C", "Universal 60°C", "PreWash 5mins"}
  {
  }

  /** On the washing machine no program name survives the trip: every code
      shows under the Program sensor's name for it, which is never the
      washing machine's name. */
  lemma WasherReadBack(name: string)
    requires name in WasherPrograms
    ensures Sensor.Translate(Sensor.Program, UntranslateProgram(name, Sensor.WashingMachine)) != Some(name)
  {
  }

  /** The other way round on the dishwasher: the name the Program sensor
      shows for a code can be sent back to select that code for P19, P5 and
      P12; for P2 and P8 the shown name is not in the program list at all. */
  lemma DishwasherResendShown(code: string)
    requires code in Sensor.ProgramNames
    ensures UntranslateProgram(Sensor.Translate(Sensor.Program, Some(code)).value, Sensor.Dishwasher) ==
            (if code in {"P19", "P5", "P12"} then Some(code) else None)
  {
    Sensor.TranslateFollowsRules(Sensor.Program, Some(code));
  }

  // ---------------------------------------------------------------------
  // The command string
  // ---------------------------------------------------------------------

  /** The fields of a program command, in the order the command lists them. */
  datatype ProgramCommand = ProgramCommand(
    program: string, eco: string, treinUno: string, extraDry: string, startStop: string, metaCarico: string)

  /** `f"Program={raw_program}&Eco={eco}&TreinUno={treinuno}&ExtraDry={extradry}&StartStop={startstop}&MetaCarico={metacarico}"`:
      the six `key=value` fields of the command joined by `&`, in the order
      Program, Eco, TreinUno, ExtraDry, StartStop, MetaCarico. */
  function CommandString(c: ProgramCommand): (r: string)
    ensures r == Join(FieldsOf(c), '&')
  {
    JoinFields(c.program, c.eco, c.treinUno, c.extraDry, c.startStop, c.metaCarico);
    "Program=" + c.program + "&Eco=" + c.eco + "&TreinUno=" + c.treinUno + "&ExtraDry=" + c.extraDry
    + "&StartStop=" + c.startStop + "&MetaCarico=" + c.metaCarico
  }

  const CommandKeys: seq<string> := ["Program", "Eco", "TreinUno", "ExtraDry", "StartStop", "MetaCarico"]

  function CommandValues(c: ProgramCommand): (vs: seq<string>)
    ensures |vs| == |CommandKeys|
  {
    [c.program, c.eco, c.treinUno, c.extraDry, c.startStop, c.metaCarico]
  }

  /** `str.split(sep)`: the pieces between separators, empty ones kept. */
  function Split(s: string, sep: char): (parts: seq<string>)
    ensures |parts| >= 1
    ensures forall i :: 0 <= i < |parts| ==> sep !in parts[i]
  {
    if |s| == 0 then [""]
    else
      var rest := Split(s[1..], sep);
      if s[0] == sep then [""] + rest
      else [[s[0]] + rest[0]] + rest[1..]
  }

  /** `sep.join(parts)`. */
  function Join(parts: seq<string>, sep: char): string
    requires |parts| >= 1
  {
    if |parts| == 1 then parts[0] else parts[0] + [sep] + Join(parts[1..], sep)
  }

  /** Reading a `key=value` field back: the value after the expected key and
      its `=`, `None` when the field does not start that way. */
  function ParseField(key: string, field: string): (r: Option<string>)
    ensures r.Some? ==> field == key + "=" + r.value
  {
    if |field| > |key| && field[..|key|] == key && field[|key|] == '=' then
      assert field == field[..|key|] + [field[|key|]] + field[|key| + 1..];
      Some(field[|key| + 1..])
    else
      None
  }

  /** How the appliance reads a command string: six `&`-separated fields
      carrying the expected keys in the expected order. */
  function ParseCommand(s: string): (r: Option<ProgramCommand>)
  {
    var parts := Split(s, '&');
    if |parts| != |CommandKeys| then None
    else
      var p0 := ParseField(CommandKeys[0], parts[0]);
      var p1 := ParseField(CommandKeys[1], parts[1]);
      var p2 := ParseField(CommandKeys[2], parts[2]);
      var p3 := ParseField(CommandKeys[3], parts[3]);
      var p4 := ParseField(CommandKeys[4], parts[4]);
      var p5 := ParseField(CommandKeys[5], parts[5]);
      if p0.Some? && p1.Some? && p2.Some? && p3.Some? && p4.Some? && p5.Some? then
        Some(ProgramCommand(p0.value, p1.value, p2.value, p3.value, p4.value, p5.value))
      else
        None
  }

  lemma {:induction false} JoinSplit(s: string, sep: char)
    ensures Join(Split(s, sep), sep) == s
    decreases |s|
  {
    if |s| > 0 {
      var rest := Split(s[1..], sep);
      JoinSplit(s[1..], sep);
      if s[0] == sep {
        assert Split(s, sep) == [""] + rest;
        assert ([""] + rest)[1..] == rest;
        assert s == [] + [sep] + s[1..];
      } else {
        var parts := Split(s, sep);
        assert parts == [[s[0]] + rest[0]] + rest[1..];
        if |rest| == 1 {
          assert s == [s[0]] + s[1..];
        } else {
          assert parts[1..] == rest[1..];
          assert Join(rest, sep) == rest[0] + [sep] + Join(rest[1..], sep);
          assert s == [s[0]] + s[1..];
        }
      }
    }
  }

  lemma {:induction false} SplitNoSeparator(a: string, sep: char)
    requires sep !in a
    ensures Split(a, sep) == [a]
    decreases |a|
  {
    if |a| > 0 {
      SplitNoSeparator(a[1..], sep);
      assert a == [a[0]] + a[1..];
    }
  }

  lemma {:induction false} SplitAtSeparator(a: string, sep: char, b: string)
    requires sep !in a
    ensures Split(a + [sep] + b, sep) == [a] + Split(b, sep)
    decreases |a|
  {
    var s := a + [sep] + b;
    if |a| == 0 {
      assert s[1..] == b;
    } else {
      assert s[1..] == a[1..] + [sep] + b;
      SplitAtSeparator(a[1..], sep, b);
      assert a == [a[0]] + a[1..];
    }
  }

  lemma {:induction false} SplitJoin(parts: seq<string>, sep: char)
    requires |parts| >= 1
    requires forall i :: 0 <= i < |parts| ==> sep !in parts[i]
    ensures Split(Join(parts, sep), sep) == parts
    decreases |parts|
  {
    if |parts| == 1 {
      SplitNoSeparator(parts[0], sep);
    } else {
      SplitJoin(parts[1..], sep);
      SplitAtSeparator(parts[0], sep, Join(parts[1..], sep));
      assert parts == [parts[0]] + parts[1..];
    }
  }

  /** The six `key=value` fields of a command, in command order. */
  function FieldsOf(c: ProgramCommand): (fields: seq<string>)
    ensures |fields| == |CommandKeys|
    ensures forall i :: 0 <= i < |fields| ==> fields[i] == CommandKeys[i] + "=" + CommandValues(c)[i]
  {
    ["Program=" + c.program, "Eco=" + c.eco, "TreinUno=" + c.treinUno, "ExtraDry=" + c.extraDry,
     "StartStop=" + c.startStop, "MetaCarico=" + c.metaCarico]
  }

  /** Joining one more part appends the separator and that part. */
  lemma {:induction false} JoinSnoc(parts: seq<string>, sep: char)
    requires |parts| >= 2
    ensures Join(parts, sep) == Join(parts[..|parts| - 1], sep) + [sep] + parts[|parts| - 1]
    decreases |parts|
  {
    var n := |parts|;
    if n > 2 {
      JoinSnoc(parts[1..], sep);
      assert parts[1..][..n - 2] == parts[..n - 1][1..];
    }
  }

  /** The first `n` fields of a command joined by `&` grow by `&key=value`. */
  lemma JoinNext(f: seq<string>, n: nat, prefix: string, sepKey: string, key: string, value: string)
    requires 2 <= n <= |f| && Join(f[..n - 1], '&') == prefix
    requires f[n - 1] == key + value && sepKey == "&" + key
    ensures Join(f[..n], '&') == prefix + sepKey + value
  {
    JoinSnoc(f[..n], '&');
    assert f[..n][..n - 1] == f[..n - 1];
  }

  /** The command's fields joined by `&`, read from the left. */
  lemma JoinFields(program: string, eco: string, treinUno: string, extraDry: string, startStop: string, metaCarico: string)
    ensures Join(["Program=" + program, "Eco=" + eco, "TreinUno=" + treinUno, "ExtraDry=" + extraDry,
                  "StartStop=" + startStop, "MetaCarico=" + metaCarico], '&')
            == "Program=" + program + "&Eco=" + eco + "&TreinUno=" + treinUno + "&ExtraDry=" + extraDry
               + "&StartStop=" + startStop + "&MetaCarico=" + metaCarico
  {
    var f := ["Program=" + program, "Eco=" + eco, "TreinUno=" + treinUno, "ExtraDry=" + extraDry,
              "StartStop=" + startStop, "MetaCarico=" + metaCarico];
    var s1 := "Program=" + program;
    var s2 := s1 + "&Eco=" + eco;
    var s3 := s2 + "&TreinUno=" + treinUno;
    var s4 := s3 + "&ExtraDry=" + extraDry;
    var s5 := s4 + "&StartStop=" + startStop;
    assert f[..1] == [s1];
    JoinNext(f, 2, s1, "&Eco=", "Eco=", eco);
    JoinNext(f, 3, s2, "&TreinUno=", "TreinUno=", treinUno);
    JoinNext(f, 4, s3, "&ExtraDry=", "ExtraDry=", extraDry);
    JoinNext(f, 5, s4, "&StartStop=", "StartStop=", startStop);
    JoinNext(f, 6, s5, "&MetaCarico=", "MetaCarico=", metaCarico);
    assert f[..6] == f;
  }

  /** A `key=value` field is read back as its value. */
  lemma FieldParses(key: string, value: string)
    ensures ParseField(key, key + "=" + value) == Some(value)
  {
    var field := key + "=" + value;
    assert field[..|key|] == key && field[|key|] == '=' && field[|key| + 1..] == value;
  }

  lemma CommandKeysHaveNoAmpersand()
    ensures forall i :: 0 <= i < |CommandKeys| ==> '&' !in CommandKeys[i]
  {
    assert '&' !in "Program" && '&' !in "Eco" && '&' !in "TreinUno";
    assert '&' !in "ExtraDry" && '&' !in "StartStop" && '&' !in "MetaCarico";
  }

  /** A command whose option values hold no `&` is read back as exactly the
      command that was written. */
  lemma CommandRoundTrip(c: ProgramCommand)
    requires forall i :: 0 <= i < 6 ==> '&' !in CommandValues(c)[i]
    ensures ParseCommand(CommandString(c)) == Some(c)
  {
    var f := FieldsOf(c);
    CommandKeysHaveNoAmpersand();
    assert forall i :: 0 <= i < 6 ==> '&' !in f[i];
    SplitJoin(f, '&');
    FieldParses(CommandKeys[0], c.program);
    FieldParses(CommandKeys[1], c.eco);
    FieldParses(CommandKeys[2], c.treinUno);
    FieldParses(CommandKeys[3], c.extraDry);
    FieldParses(CommandKeys[4], c.startStop);
    FieldParses(CommandKeys[5], c.metaCarico);
  }

  /** Conversely, a string read as a command is exactly that command's
      string: the reading is exact, not lenient. */
  lemma ParseCommandExact(s: string)
    requires ParseCommand(s).Some?
    ensures CommandString(ParseCommand(s).value) == s
  {
    var c := ParseCommand(s).value;
    var parts := Split(s, '&');
    JoinSplit(s, '&');
    assert parts == FieldsOf(c);
  }

  // ---------------------------------------------------------------------
  // async_send_program
  // ---------------------------------------------------------------------

  /** Why `async_send_program` raises before any request is made. */
  datatype SendError =
    | MissingDeviceName
    | MissingProgram
    | UnknownProgram(program: string)
    | EncodeFailed(data: string)

  /** `not value` for a service field: absent or empty. */
  predicate Blank(v: Option<string>) {
    v.None? || v.value == ""
  }

  /** The command the service data asks for, once the program name is
      untranslated: option flags default to "0" when absent. */
  function RequestedCommand(data: map<string, string>, rawProgram: string): ProgramCommand {
    ProgramCommand(rawProgram,
                   Get(data, "eco").GetOr("0"), Get(data, "treinuno").GetOr("0"),
                   Get(data, "extradry").GetOr("0"), Get(data, "startstop").GetOr("0"),
                   Get(data, "metacarico").GetOr("0"))
  }

  /** `async_send_program` up to the request: the data value it puts in
      the write URL (the `_encode_data` output for the command text), or the
      error raised. The device's type, encryption flag and key are those its
      coordinator holds. */
  function SendProgram(data: map<string, string>, deviceType: string, encrypted: bool, key: string)
    : (r: Result<string, SendError>)
    ensures Blank(Get(data, "device_name")) <==> r == Err(MissingDeviceName)
    ensures !Blank(Get(data, "device_name")) && Blank(Get(data, "program")) <==> r == Err(MissingProgram)
    ensures r.Err? && r.error.UnknownProgram? <==>
              !Blank(Get(data, "device_name")) && !Blank(Get(data, "program"))
              && UntranslateProgram(data["program"], deviceType).None?
    ensures r.Err? && r.error.EncodeFailed? <==>
              !Blank(Get(data, "device_name")) && !Blank(Get(data, "program"))
              && UntranslateProgram(data["program"], deviceType).Some?
              && encrypted && key == ""
    ensures r.Ok? ==>
              var text := CommandString(RequestedCommand(data, UntranslateProgram(data["program"], deviceType).value));
              && EncodeData(text, encrypted, key) == Some(r.value)
              && DecryptData(r.value, encrypted, key) == Some(if encrypted then Deciphered(Utf8(text)) else Plain(text))
  {
    var deviceName := Get(data, "device_name");
    var program := Get(data, "program");
    if Blank(deviceName) then Err(MissingDeviceName)
    else if Blank(program) then Err(MissingProgram)
    else
      match UntranslateProgram(program.value, deviceType)
      case None => Err(UnknownProgram(program.value))
      case Some(rawProgram) =>
        var text := CommandString(RequestedCommand(data, rawProgram));
        var encoded := EncodeData(text, encrypted, key);
        if encoded.None? || encoded.value == "" then
          Err(EncodeFailed(text))
        else
          EncodeDecryptRoundTrip(text, encrypted, key);
          Ok(encoded.value)
  }

  /** How the appliance reads a payload back as a command (ASCII text only). */
  function ReadCommand(p: Payload): Option<ProgramCommand> {
    match p
    case Plain(text) => ParseCommand(text)
    case Deciphered(bytes) =>
      match DecodeAscii(bytes)
      case None => None
      case Some(text) => ParseCommand(text)
  }

  /** The option fields of the service call. */
  const OptionFields: seq<string> := ["eco", "treinuno", "extradry", "startstop", "metacarico"]

  /** An option value that can travel in the command: ASCII and free of `&`. */
  predicate PlainOption(v: string) {
    IsAscii(v) && '&' !in v
  }

  lemma AsciiConcat(a: string, b: string)
    requires IsAscii(a) && IsAscii(b)
    ensures IsAscii(a + b)
  {
    assert forall i :: |a| <= i < |a + b| ==> (a + b)[i] == b[i - |a|];
  }

  lemma CommandKeysAscii()
    ensures forall i :: 0 <= i < |CommandKeys| ==> IsAscii(CommandKeys[i] + "=")
  {
    assert IsAscii("Program=") && IsAscii("Eco=") && IsAscii("TreinUno=");
    assert IsAscii("ExtraDry=") && IsAscii("StartStop=") && IsAscii("MetaCarico=");
  }

  lemma CommandStringAscii(c: ProgramCommand)
    requires forall i :: 0 <= i < 6 ==> IsAscii(CommandValues(c)[i])
    ensures IsAscii(CommandString(c))
  {
    var f := FieldsOf(c);
    CommandKeysAscii();
    forall i | 0 <= i < 6
      ensures IsAscii(f[i])
    {
      AsciiConcat(CommandKeys[i] + "=", CommandValues(c)[i]);
    }
    JoinAscii(f, '&');
  }

  lemma {:induction false} JoinAscii(parts: seq<string>, sep: char)
    requires |parts| >= 1 && sep as int < 0x80
    requires forall i :: 0 <= i < |parts| ==> IsAscii(parts[i])
    ensures IsAscii(Join(parts, sep))
    decreases |parts|
  {
    if |parts| > 1 {
      JoinAscii(parts[1..], sep);
      AsciiConcat(parts[0], [sep]);
      AsciiConcat(parts[0] + [sep], Join(parts[1..], sep));
    }
  }

  /** Every program code is plain ASCII without `&`. */
  lemma ProgramCodePlain(code: string)
    requires code in ProgramCodes
    ensures PlainOption(code)
  {
  }

  /** A plain program code and plain option values give a command whose
      every value is plain. */
  lemma RequestedPlain(data: map<string, string>, rawProgram: string)
    requires PlainOption(rawProgram)
    requires forall i :: 0 <= i < |OptionFields| && OptionFields[i] in data ==> PlainOption(data[OptionFields[i]])
    ensures forall i :: 0 <= i < 6 ==> PlainOption(CommandValues(RequestedCommand(data, rawProgram))[i])
  {
    assert PlainOption("0");
    assert OptionFields[0] == "eco" && OptionFields[1] == "treinuno" && OptionFields[2] == "extradry";
    assert OptionFields[3] == "startstop" && OptionFields[4] == "metacarico";
  }

  /** A command whose values are plain is read back intact, whether it
      travels as text or as its UTF-8 bytes. */
  lemma ReadCommandString(c: ProgramCommand)
    requires forall i :: 0 <= i < 6 ==> PlainOption(CommandValues(c)[i])
    ensures ReadCommand(Plain(CommandString(c))) == Some(c)
    ensures ReadCommand(Deciphered(Utf8(CommandString(c)))) == Some(c)
  {
    CommandRoundTrip(c);
    CommandStringAscii(c);
    DecodeAsciiUtf8(CommandString(c));
  }

  /** The data value of a command that `async_send_program` lets through
      carries that command intact: decrypting it with the device's settings
      and reading it as a command gives the untranslated program code and
      the option flags (each "0" when the call left it out), in command
      order. */
  lemma SendProgramDelivers(data: map<string, string>, deviceType: string, encrypted: bool, key: string)
    requires SendProgram(data, deviceType, encrypted, key).Ok?
    requires forall i :: 0 <= i < |OptionFields| && OptionFields[i] in data ==> PlainOption(data[OptionFields[i]])
    ensures ReadCommand(DecryptData(SendProgram(data, deviceType, encrypted, key).value, encrypted, key).value)
            == Some(RequestedCommand(data, UntranslateProgram(data["program"], deviceType).value))
  {
    var raw := UntranslateProgram(data["program"], deviceType).value;
    ProgramCodePlain(raw);
    RequestedPlain(data, raw);
    ReadCommandString(RequestedCommand(data, raw));
  }
}

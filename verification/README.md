# candy_bianca: a Dafny model of the codec, the status translation and the write path

The candy_bianca Home Assistant integration talks to a Candy Bianca
dishwasher or washing machine over the local network. The device answers
status polls with JSON and takes commands as `key=value` fields joined by
`&` in a URL parameter; both are optionally scrambled with a cyclic XOR
against a shared key and sent as hex. This project models the pure core of the integration and
proves what it does:

- **The XOR/hex codec** (`services.py`): `_encode_data` XORs the UTF-8
  bytes of a text with the key bytes, taken cyclically, and writes the result
  as lower-case hex. `_decrypt_data` checks the length, unhexes and applies
  the same XOR. Modules `Bits` (bytes and `^`), `Encoding` (`str.encode`),
  `Hex` and `Binascii` (`hexlify`/`unhexlify`) and `Codec`.
- **The decode step of the coordinator** (`coordinator.py:53-80`): the
  polled text is stripped and then either deciphered or passed through.
  Modules `Whitespace` (`str.strip`) and `Coordinator`.
- **The sensor platform** (`sensor.py`): which sensors a device gets, and
  how `_update_state` turns a raw status value into the state shown. That
  covers the Wi-Fi, error-code, machine-state and on/off tables, the program
  names, and the remaining-time conversion with `int()`, `//` and `%`.
  Modules `Numerals` (`int()`/`str()`) and `Sensor`.
- **The write path** (`services.py`): `_untranslate_program`, the command
  string of line 61, and `async_send_program` up to the request it sends.
  Module `Programs`.

`Scenarios` states a few of these facts for concrete inputs. One example is
the hex "0102" under the key "A" deciphering to "@C".

The device's state is an immutable value throughout. Every fallible step
returns an `Option` or `Result` instead of raising. Python's integers and
bytes are unbounded `int`s here:
- a byte is an `int` from 0 to 255;
- `^` is defined bit by bit;
- `//` and `%` by 60 are Dafny's `/` and `%`, which agree with Python's
  floor division for a positive divisor, negative counts included;
- `int()` reads at most 4300 digits, CPython's default limit on integer
  string conversion.

## Model

| member | source | states |
|---|---|---|
| `Bits.Xor` | services.py:248 | `a ^ b` on bytes: each of the eight bits of the result is set exactly when it is set in one operand but not the other |
| `Bits.XorInvolutive` | services.py:279-280 | XORing a byte twice with the same key byte gives the byte back |
| `Encoding.Utf8` | services.py:243-244 | `str.encode()` never shortens a string, is empty only for the empty string, and leaves an ASCII string's codes unchanged byte for byte |
| `Encoding.DecodeAsciiUtf8` | services.py:282 | decoding the UTF-8 bytes of ASCII text gives that text back |
| `Whitespace.Strip` | coordinator.py:53 | the stripped text is no longer than the input and neither starts nor ends with whitespace |
| `Whitespace.StripIsInfix` | coordinator.py:53 | the stripped text is an infix of the input with only whitespace before and after it |
| `Whitespace.StripAroundTrimmed` | coordinator.py:53 | any whitespace around a text without surrounding whitespace is exactly what `strip()` removes |
| `Whitespace.StripIdempotent` | coordinator.py:53 | stripping twice is stripping once |
| `Numerals.ParseInt` | sensor.py:200 | `int(s)` succeeds exactly when the text `strip()` keeps is an optional sign followed by 1 to 4300 decimal digits and what `strip()` removed is whitespace `int()` skips (not the controls FS..US); its value is the digits' value, negated after `-` |
| `Numerals.ParseIntAround` | sensor.py:200 | a numeral surrounded by whitespace `int()` skips parses as the numeral alone |
| `Numerals.ParseFormatInt` | sensor.py:200-203 | `int(str(n)) == n` for every integer of at most 4300 digits, negatives included |
| `Numerals.FormatInt` | sensor.py:203 | `str(n)` starts with `-` exactly when `n` is negative, and after the sign is the shortest decimal spelling: digits only, with no leading zero unless it is "0" |
| `Binascii.Hexlify` | services.py:250 | `hexlify` writes two lower-case hex digits per byte, byte `i` at characters `2i` and `2i+1` |
| `Binascii.Unhexlify` | services.py:276 | `unhexlify` succeeds exactly on even-length strings of hex digits of either case, giving half as many bytes |
| `Binascii.UnhexlifyHexlify` | services.py:276 | `unhexlify(hexlify(b)) == b` |
| `Binascii.HexlifyUnhexlify` | services.py:276 | whatever `unhexlify` accepts, `hexlify` spells back up to letter case |
| `Codec.CyclicXor` | services.py:247-248 | output byte `i` is input byte `i` XOR key byte `i mod len(key)`, the output as long as the input |
| `Codec.CyclicXorInvolutive` | services.py:279-280 | the same cyclic XOR applied twice gives the data back |
| `Codec.EncodeData` | services.py:230-255 | without encryption the text comes back unchanged; with an empty key there is no result; otherwise the result is `2n` lower-case hex digits for `n` UTF-8 bytes and unhexes to the cyclic XOR of data and key |
| `Codec.DecryptData` | services.py:257-287 | without encryption the text comes back unchanged; an empty key gives no result; otherwise there is a result exactly when the text has even length and only hex digits, and re-enciphering it spells the input in lower case |
| `Codec.EncodeDecryptRoundTrip` | services.py:230-287 | decrypting what `_encode_data` produced, with the same settings, gives the original UTF-8 bytes (or the text itself without encryption) |
| `Codec.EncodeDataInjective` | services.py:242-252 | under a fixed non-empty key, two texts with the same encoding have the same UTF-8 bytes |
| `Coordinator.DecodeResponse` | coordinator.py:53-80 | the stripped text passes through unless encryption is on with a non-empty key; then decoding succeeds exactly on even-length hex, and re-enciphering the bytes spells the stripped text in lower case |
| `Coordinator.DecodeAgreesWithDecrypt` | coordinator.py:56-71 | with a non-empty key the coordinator's inline decryption equals `_decrypt_data` applied to the stripped text |
| `Coordinator.EmptyKeyPathsDiffer` | coordinator.py:56-80 | with encryption on and an empty key the coordinator passes the text through while `_decrypt_data` gives no result |
| `Coordinator.DecodeEncodedStatus` | coordinator.py:53-80 | an encrypted status, surrounded by any whitespace, decodes back to the UTF-8 bytes of that status |
| `Sensor.SensorsMapping` | sensor.py:35-61 | the merge creates each sensor once: the sixteen common sensors in order, then the one machine-state sensor of a known device type; 17 sensors for statusDWash or statusLavatrice and 16 otherwise |
| `Sensor.CommonSensorsDistinct` | sensor.py:35-52 | no field occurs twice among the common sensors |
| `Sensor.CommonSensorsCover` | sensor.py:35-57 | every field but the two machine states has a common sensor, and those two have none |
| `Sensor.ToggleIsOnOff` | sensor.py:144-185 | the `"0"`/`"1"` branches of an on/off field are a two-entry lookup with pass-through |
| `Sensor.ProgramIsTable` | sensor.py:186-197 | the chain of program branches is the five-entry table of program names with pass-through |
| `Sensor.Translate` | sensor.py:107-207 | the state is missing exactly when the raw value is missing on a field other than the Wi-Fi status and the remaining time; StartStop, OpenDoorOpt, DelayStart, Reset and CheckUp pass their value through |
| `Sensor.TranslateFollowsRules` | sensor.py:107-207 | each field's branch equals the declarative table of rules; exactly StartStop, OpenDoorOpt, DelayStart, Reset and CheckUp have no rule and pass their value through |
| `Sensor.MissingValue` | sensor.py:104-207 | a missing value stays missing on every field except the Wi-Fi status ("Unknown") and the remaining time ("Error") |
| `Sensor.WifiStatus` | sensor.py:107-113 | the Wi-Fi status is one of three states: "1" exactly gives "Remote Control", "0" exactly gives "No Remote Control", anything else "Unknown" |
| `Sensor.ErrorCode` | sensor.py:115-119 | "E0" reads "Healthy" and every other code passes through |
| `Sensor.ToggleField` | sensor.py:144-185 | on each on/off field "0" and "1" get two different labels, neither a code, and any other value passes through |
| `Sensor.MachineStatesDifferOnlyAtFour` | sensor.py:122-143 | the dishwasher and washing-machine state sensors agree on every raw value except "4" |
| `Sensor.MachineStateCodes` | sensor.py:122-143 | codes "0" to "5" get a label and every other code passes through, on both machine-state sensors |
| `Sensor.RemTimeMinutes` | sensor.py:198-203 | an integer count `n` reads "h hours m minutes" for the one pair with `60h + m = n` and `0 <= m < 60` |
| `Sensor.RemTimeParsed` | sensor.py:198-203 | a value `int()` accepts reads as the hours and minutes of the parsed count |
| `Sensor.RemTimeError` | sensor.py:198-206 | the remaining time reads "Error" exactly when the value is missing or `int()` rejects it, which includes a numeral of more than 4300 digits and one next to an FS..US control |
| `Sensor.RemTimeOfCount` | sensor.py:198-203 | a count of at most 4300 digits spelt by `str` comes back as its floor quotient and remainder by 60, which recombine to the count |
| `Sensor.TranslateIdempotent` | sensor.py:115-197 | translating a translated value again changes nothing on every field but the Wi-Fi status and the remaining time |
| `Sensor.WifiNotIdempotent` | sensor.py:107-113 | every Wi-Fi status, missing ones included, translated twice reads "Unknown" |
| `Sensor.RawValue` | sensor.py:102-104 | the raw value is present exactly when the device's object has the field, and is that field's value |
| `Sensor.UpdateState` | sensor.py:98-213 | without status data the state is "error" with the error attribute; otherwise it is the translated raw value and the attributes are kept |
| `Sensor.ErrorAttributeSticks` | sensor.py:210-212 | once an update without data has set the error attribute, no later update removes it |
| `Programs.UntranslateProgram` | services.py:201-228 | on the dishwasher exactly "Zoom 39mins 60°C", "Intensive 75°C", "Universal 60°C", "PreWash 5mins" and "Eco 45°C" give P19, P2, P5, P12 and P8; on the washing machine exactly "Intensive 75°C", "Normal 60°C", "Eco 45°C", "Zoom 60°C" and "Pre-Wash" give P2, P5, P8, P19 and P12; every other name and every unknown device type give no code |
| `Programs.UntranslateBijective` | services.py:207-224 | for each known device type distinct names give distinct codes, and every one of the five codes has a name |
| `Programs.DishwasherReadBack` | services.py:207-214 | on the dishwasher a name sent and read back by the Program sensor is unchanged exactly for Zoom, Universal and PreWash |
| `Programs.WasherReadBack` | services.py:215-222 | on the washing machine no program name reads back unchanged |
| `Programs.DishwasherResendShown` | sensor.py:186-197 | a name the Program sensor shows selects its code again exactly for P19, P5 and P12 |
| `Programs.CommandString` | services.py:61 | the command is the six `key=value` fields Program, Eco, TreinUno, ExtraDry, StartStop, MetaCarico joined by `&` |
| `Programs.CommandRoundTrip` | services.py:61 | a command whose values hold no `&` reads back as exactly that command |
| `Programs.ParseCommandExact` | services.py:61 | a string read as a command is exactly that command's string |
| `Programs.CommandStringAscii` | services.py:61 | a command with ASCII values is ASCII |
| `Programs.SendProgram` | services.py:25-66 | a blank device name, a blank program, an unknown program and an empty key with encryption on each give their own error, in that order; otherwise the result is the `_encode_data` output for the command text, which decrypts back to that text |
| `Programs.ReadCommandString` | services.py:61-64 | a command with plain values reads back intact from its text or from its UTF-8 bytes |
| `Programs.SendProgramDelivers` | services.py:56-64 | the data value computed for a command decrypts to the command with the untranslated program code and the option flags, each "0" when left out |
| `Scenarios.DecryptWithA` | services.py:257-287 | the hex "0102" under the key "A" deciphers to the bytes of "@C" |
| `Scenarios.EncodeWithA` | services.py:230-255 | "@C" under the key "A" encodes to "0102" |
| `Scenarios.RemTime125` | sensor.py:198-203 | "125" reads "2 hours 5 minutes" |
| `Scenarios.RemTimeMinus5` | sensor.py:198-203 | "-5" reads "-1 hours 55 minutes", by floor division |
| `Scenarios.RemTimeAbc` | sensor.py:198-206 | "abc" reads "Error" |
| `Scenarios.ParseAfterFileSeparator` | sensor.py:200 | `strip()` removes a leading FS control but `int()` rejects "\x1c5" |
| `Scenarios.RemTimeAfterFileSeparator` | sensor.py:198-206 | "\x1c125" reads "Error" |
| `Scenarios.EcoProgramExample` | services.py:207-222 | "Eco 45°C" selects P8 on both device types, and P8 is shown as "ECO 45°C" |

## Left out

- HTTP requests, URL building, `raise_for_status` and the request error handlers (services.py:68-92, coordinator.py:44-51, 89-94) are I/O.
- `json.loads` (coordinator.py:82-87) is not modelled. The polled status is a map from device-type tag to a map from field code to a string value. JSON values that are not strings (numbers, nested objects) are not modelled.
- Encoding.DecodeAscii: models `decode("utf-8", errors="ignore")` (services.py:282, coordinator.py:73-75) only for ASCII bytes and gives `None` for any other byte. The lenient decoder never fails. Decryption results therefore stop at the deciphered bytes (`Payload.Deciphered`).
- `Codec.DecryptData` takes the three arguments its caller passes. As written, `_decrypt_data` also declares a stray `self` (services.py:257-259). When the appliance's response text is non-empty (services.py:77), the call at services.py:78-80 therefore raises `TypeError`, which services.py:90-92 turns into an error after the write has already been sent. The model states the body's intended behaviour, not this arity fault.
- `async_set_program` (services.py:94-185), service registration (services.py:187-199) and the coordinator lookup by device name (services.py:38-50) are Home Assistant plumbing. `SendProgram` takes the device type, encryption flag and key as parameters, and the "could not find device" error is not modelled.
- config_flow.py and `__init__.py` are entry setup and schema code. The 30-second poll interval, entity names and unique ids, availability and the listener wiring (sensor.py:63-96, 216-239) are not modelled.
- The coordinator keeps `json_data` from the last successful poll when a later poll fails. `Sensor.UpdateState` takes the status each update sees as a parameter instead of modelling the coordinator's memory.
- `Numerals.ParseInt` accepts what CPython's `int()` accepts under the default digit limit for text whose numeral is ASCII: surrounding whitespace other than the controls FS..US (non-ASCII whitespace included, since CPython turns it into spaces first), an optional sign and 1 to 4300 decimal digits. It rejects the underscores and non-ASCII decimal digits that `int()` also accepts, and does not model a process that changes the limit with `sys.set_int_max_str_digits`.
- `Numerals.FormatInt` writes every integer; `str()` raises `ValueError` past 4300 digits. `Numerals.ParseFormatInt` and `Sensor.RemTimeOfCount` therefore require at most 4300 digits.
- `Programs.SendProgram` stops at the data value. The URL it goes into (services.py:69) always says `encrypted=1` and does not URL-escape the value. With encryption off the command's `&` characters therefore split the query string, and the URL's `data` parameter is only `Program=<code>`; the model does not promise what the appliance receives.
- Python strings may hold lone surrogates, which a Dafny `char` cannot. `str.encode()` would raise on them; they are not modelled.
- Sensor types range over the 18 fields the sensor tables name (`Sensor.Field`). The integration creates no sensor of any other type.
- How the appliance parses a command is not part of the integration. `Programs.ParseCommand` is the model's own exact reading of the `key=value&…` format, used to state that the command string loses nothing.

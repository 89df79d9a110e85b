/** The sensor platform of sensor.py: which sensors a device gets
    (`async_setup_entry`) and how a sensor turns the raw value in the polled
    status into its displayed state (`CandyBiancaSensor._update_state`). */
module Sensor {
  import opened Wrappers
  import opened Numerals

  /** The two device-type tags the adapter knows; the polled JSON keeps a
      device's status object under its tag. */
  const Dishwasher: string := "statusDWash"
  const WashingMachine: string := "statusLavatrice"

  // ---------------------------------------------------------------------
  // The sensor set
  // ---------------------------------------------------------------------

  /** The fields of a device's status object that get a sensor; a sensor's
      type is the field it shows. */
  datatype Field =
    | StatoWiFi | CodiceErrore | MetaCarico | StartStop | TreinUno | Eco | Program | ExtraDry
    | OpenDoorOpt | DelayStart | RemTime | MissSalt | MissRinse | OpenDoor | Reset | CheckUp
    | StatoDWash | StatoLavatrice

  /** The key under which the status object carries a field. */
  function Code(f: Field): string {
    match f
    case StatoWiFi => "StatoWiFi"
    case CodiceErrore => "CodiceErrore"
    case MetaCarico => "MetaCarico"
    case StartStop => "StartStop"
    case TreinUno => "TreinUno"
    case Eco => "Eco"
    case Program => "Program"
    case ExtraDry => "ExtraDry"
    case OpenDoorOpt => "OpenDoorOpt"
    case DelayStart => "DelayStart"
    case RemTime => "RemTime"
    case MissSalt => "MissSalt"
    case MissRinse => "MissRinse"
    case OpenDoor => "OpenDoor"
    case Reset => "Reset"
    case CheckUp => "CheckUp"
    case StatoDWash => "StatoDWash"
    case StatoLavatrice => "StatoLavatrice"
  }

  /** Field and sensor name of the sensors every device gets, in the order
      `common_sensors` lists them. */
  const CommonSensors: seq<(Field, string)> := [
    (StatoWiFi, "Wifi Status"),
    (CodiceErrore, "Error Code"),
    (MetaCarico, "Half Load"),
    (StartStop, "Start/Stop"),
    (TreinUno, "3in1"),
    (Eco, "Eco Mode"),
    (Program, "Program"),
    (ExtraDry, "Extra Dry"),
    (OpenDoorOpt, "Open Door Option"),
    (DelayStart, "Delay Start"),
    (RemTime, "Remaining Time"),
    (MissSalt, "Salt Missing"),
    (MissRinse, "Rinse Missing"),
    (OpenDoor, "Door Open"),
    (Reset, "Reset"),
    (CheckUp, "Checkup")
  ]

  /** The device-specific sensors: one machine-state sensor for each of
      the two known device types, none for any other tag. */
  function DeviceSensors(deviceType: string): seq<(Field, string)> {
    if deviceType == Dishwasher then [(StatoDWash, "Dishwasher Status")]
    else if deviceType == WashingMachine then [(StatoLavatrice, "Washing Machine Status")]
    else []
  }

  /** No field occurs twice in a list of sensors. */
  predicate DistinctFields(sensors: seq<(Field, string)>) {
    forall i, j :: 0 <= i < j < |sensors| ==> sensors[i].0 != sensors[j].0
  }

  /** The sensors `async_setup_entry` creates, in creation order:
      `{**common_sensors, **device_sensors}`. The device-specific fields are
      not among the common ones, so the merge overrides nothing and is the
      common list followed by the device list; every sensor is created once,
      seventeen for a known device type and sixteen for any other tag. */
  function SensorsMapping(deviceType: string): (sensors: seq<(Field, string)>)
    ensures DistinctFields(sensors)
    ensures |sensors| == if deviceType == Dishwasher || deviceType == WashingMachine then 17 else 16
    ensures sensors[..16] == CommonSensors
    ensures deviceType == Dishwasher ==> sensors[16] == (StatoDWash, "Dishwasher Status")
    ensures deviceType == WashingMachine ==> sensors[16] == (StatoLavatrice, "Washing Machine Status")
  {
    CommonSensorsDistinct();
    var sensors := CommonSensors + DeviceSensors(deviceType);
    assert forall i :: 0 <= i < 16 ==> !sensors[i].0.StatoDWash? && !sensors[i].0.StatoLavatrice?;
    sensors
  }

  /** The position of a field in `common_sensors`; the machine states come
      after them. */
  function Rank(f: Field): nat {
    match f
    case StatoWiFi => 0 case CodiceErrore => 1 case MetaCarico => 2 case StartStop => 3
    case TreinUno => 4 case Eco => 5 case Program => 6 case ExtraDry => 7
    case OpenDoorOpt => 8 case DelayStart => 9 case RemTime => 10 case MissSalt => 11
    case MissRinse => 12 case OpenDoor => 13 case Reset => 14 case CheckUp => 15
    case StatoDWash => 16 case StatoLavatrice => 16
  }

  lemma CommonSensorsDistinct()
    ensures DistinctFields(CommonSensors)
  {
    assert forall i :: 0 <= i < 16 ==> Rank(CommonSensors[i].0) == i;
  }

  /** Every field has a common sensor, except the two machine states, which
      have none. */
  lemma CommonSensorsCover()
    ensures forall f: Field :: !f.StatoDWash? && !f.StatoLavatrice? <==> exists i :: 0 <= i < 16 && CommonSensors[i].0 == f
  {
    forall f: Field | !f.StatoDWash? && !f.StatoLavatrice?
      ensures exists i :: 0 <= i < 16 && CommonSensors[i].0 == f
    {
      assert CommonSensors[Rank(f)].0 == f;
    }
  }

  // ---------------------------------------------------------------------
  // Translating a raw value
  // ---------------------------------------------------------------------

  const DishwasherStates: map<string, string> := map[
    "0" := "IDLE", "1" := "PRE_WASH", "2" := "WASH", "3" := "RINSE", "4" := "DRYING", "5" := "FINISHED"
  ]

  const WasherStates: map<string, string> := map[
    "0" := "IDLE", "1" := "PRE_WASH", "2" := "WASH", "3" := "RINSE", "4" := "SPIN", "5" := "FINISHED"
  ]

  /** `states.get(raw, raw)`: a missing value stays missing. */
  function StatesGet(states: map<string, string>, raw: Option<string>): Option<string> {
    match raw
    case None => None
    case Some(v) => Some(if v in states then states[v] else v)
  }

  /** The `"0"`/`"1"` branches shared by the on/off fields. */
  function Toggle(raw: Option<string>, zero: string, one: string): Option<string> {
    if raw == Some("0") then Some(zero)
    else if raw == Some("1") then Some(one)
    else raw
  }

  /** `int(raw)` with `None` standing for the `ValueError` or `TypeError`. */
  function MinutesOf(raw: Option<string>): Option<int> {
    match raw
    case None => None
    case Some(v) => ParseInt(v)
  }

  /** The RemTime state: whole hours and leftover minutes by Python's floor
      `//` and `%` (Dafny's `/` and `%` agree with them for the divisor 60,
      negative counts included), or `"Error"` when the value is not an integer. */
  function RemTimeDisplay(raw: Option<string>): string {
    match MinutesOf(raw)
    case None => "Error"
    case Some(minutes) => HoursMinutes(minutes)
  }

  /** `f"{minutes // 60} hours {minutes % 60} minutes"`. */
  function HoursMinutes(minutes: int): string {
    FormatInt(minutes / 60) + " hours " + FormatInt(minutes % 60) + " minutes"
  }

  /** The translation branches of `_update_state`, from the sensor's field
      and the raw value found for it (`None` when the status object has no
      such field) to the state shown. */
  function Translate(sensorType: Field, raw: Option<string>): (r: Option<string>)
    ensures r.None? <==> raw.None? && sensorType != StatoWiFi && sensorType != RemTime
    ensures Untranslated(sensorType) ==> r == raw
  {
    match sensorType
    case StatoWiFi =>
      if raw == Some("1") then Some("Remote Control")
      else if raw == Some("0") then Some("No Remote Control")
      else Some("Unknown")
    case CodiceErrore =>
      if raw == Some("E0") then Some("Healthy") else raw
    case StatoDWash => StatesGet(DishwasherStates, raw)
    case StatoLavatrice => StatesGet(WasherStates, raw)
    case MissSalt => Toggle(raw, "Salt OK", "Salt Missing")
    case MissRinse => Toggle(raw, "Rinse OK", "Rinse Missing")
    case TreinUno => Toggle(raw, "Disabled", "Enabled")
    case Eco => Toggle(raw, "Disabled", "Enabled")
    case ExtraDry => Toggle(raw, "Disabled", "Enabled")
    case OpenDoor => Toggle(raw, "Closed", "Open")
    case MetaCarico => Toggle(raw, "Full Load", "Half Load")
    case Program =>
      if raw == Some("P19") then Some("Zoom 39mins 60°C")
      else if raw == Some("P2") then Some("P1 75°C")
      else if raw == Some("P5") then Some("Universal 60°C")
      else if raw == Some("P8") then Some("ECO 45°C")
      else if raw == Some("P12") then Some("PreWash 5mins")
      else raw
    case RemTime => Some(RemTimeDisplay(raw))
    case _ => raw
  }

  // ---------------------------------------------------------------------
  // The same translation as a declarative table
  // ---------------------------------------------------------------------

  /** How a field's raw value is shown. `Closed`: every value, a missing one
      too, gets a label, `otherwise` when it is not in the table. `Open`:
      values in the table get their label, all others (and a missing value)
      pass through. `Minutes`: the RemTime conversion. Fields with no rule
      pass through. */
  datatype Rule =
    | Closed(labels: map<string, string>, otherwise: string)
    | Open(labels: map<string, string>)
    | Minutes

  function OnOff(zero: string, one: string): Rule {
    Open(map["0" := zero, "1" := one])
  }

  const ProgramNames: map<string, string> := map[
    "P19" := "Zoom 39mins 60°C",
    "P2" := "P1 75°C",
    "P5" := "Universal 60°C",
    "P8" := "ECO 45°C",
    "P12" := "PreWash 5mins"
  ]

  /** The rule of each field; `None` for the fields shown as they come. */
  function RuleOf(f: Field): Option<Rule> {
    match f
    case StatoWiFi => Some(Closed(map["1" := "Remote Control", "0" := "No Remote Control"], "Unknown"))
    case CodiceErrore => Some(Open(map["E0" := "Healthy"]))
    case StatoDWash => Some(Open(DishwasherStates))
    case StatoLavatrice => Some(Open(WasherStates))
    case MissSalt => Some(OnOff("Salt OK", "Salt Missing"))
    case MissRinse => Some(OnOff("Rinse OK", "Rinse Missing"))
    case TreinUno => Some(OnOff("Disabled", "Enabled"))
    case Eco => Some(OnOff("Disabled", "Enabled"))
    case ExtraDry => Some(OnOff("Disabled", "Enabled"))
    case OpenDoor => Some(OnOff("Closed", "Open"))
    case MetaCarico => Some(OnOff("Full Load", "Half Load"))
    case Program => Some(Open(ProgramNames))
    case RemTime => Some(Minutes)
    case _ => None
  }

  function Apply(rule: Rule, raw: Option<string>): Option<string> {
    match rule
    case Closed(labels, otherwise) =>
      Some(if raw.Some? && raw.value in labels then labels[raw.value] else otherwise)
    case Open(labels) => StatesGet(labels, raw)
    case Minutes => Some(RemTimeDisplay(raw))
  }

  /** What a field shows for a raw value according to the table. */
  function Show(sensorType: Field, raw: Option<string>): Option<string> {
    match RuleOf(sensorType)
    case None => raw
    case Some(rule) => Apply(rule, raw)
  }

  /** The on/off fields. */
  predicate IsToggle(f: Field) {
    f in {MissSalt, MissRinse, TreinUno, Eco, ExtraDry, OpenDoor, MetaCarico}
  }

  /** The fields `_update_state` shows as they come: no branch names them. */
  predicate Untranslated(f: Field) {
    f in {StartStop, OpenDoorOpt, DelayStart, Reset, CheckUp}
  }

  /** The `"0"`/`"1"` branches are an open table of two entries. */
  lemma ToggleIsOnOff(raw: Option<string>, zero: string, one: string)
    ensures Toggle(raw, zero, one) == Apply(OnOff(zero, one), raw)
  {
    var labels := map["0" := zero, "1" := one];
    assert "0" != "1";
    if raw.Some? && raw.value != "0" && raw.value != "1" {
      assert raw.value !in labels;
    }
  }

  /** The chain of program branches is the table `ProgramNames`. */
  lemma ProgramIsTable(raw: Option<string>)
    ensures Translate(Program, raw) == Apply(Open(ProgramNames), raw)
  {
  }

  /** `_update_state` is the table `RuleOf`, field by field: a field with a
      rule shows its raw value through that rule, every other field shows
      the raw value as it is. */
  lemma TranslateFollowsRules(sensorType: Field, raw: Option<string>)
    ensures Translate(sensorType, raw) == Show(sensorType, raw)
    ensures RuleOf(sensorType).None? <==> Untranslated(sensorType)
  {
    match sensorType
    case MissSalt => ToggleIsOnOff(raw, "Salt OK", "Salt Missing");
    case MissRinse => ToggleIsOnOff(raw, "Rinse OK", "Rinse Missing");
    case TreinUno => ToggleIsOnOff(raw, "Disabled", "Enabled");
    case Eco => ToggleIsOnOff(raw, "Disabled", "Enabled");
    case ExtraDry => ToggleIsOnOff(raw, "Disabled", "Enabled");
    case OpenDoor => ToggleIsOnOff(raw, "Closed", "Open");
    case MetaCarico => ToggleIsOnOff(raw, "Full Load", "Half Load");
    case Program => ProgramIsTable(raw);
    case StatoWiFi => WifiFollowsRule(raw);
    case CodiceErrore => ErrorCodeFollowsRule(raw);
    case StatoDWash => MachineStateFollowsRule(StatoDWash, raw);
    case StatoLavatrice => MachineStateFollowsRule(StatoLavatrice, raw);
    case RemTime => RemTimeShows(raw);
    case _ =>
  }

  lemma WifiFollowsRule(raw: Option<string>)
    ensures Translate(StatoWiFi, raw) == Show(StatoWiFi, raw)
  {
  }

  lemma ErrorCodeFollowsRule(raw: Option<string>)
    ensures Translate(CodiceErrore, raw) == Show(CodiceErrore, raw)
  {
  }

  lemma MachineStateFollowsRule(sensorType: Field, raw: Option<string>)
    requires sensorType == StatoDWash || sensorType == StatoLavatrice
    ensures Translate(sensorType, raw) == Show(sensorType, raw)
  {
  }

  // ---------------------------------------------------------------------
  // What the translation promises
  // ---------------------------------------------------------------------

  /** A value missing from the status object stays missing, except on the
      two fields whose branch always produces a string: the Wi-Fi status
      shows "Unknown" and the remaining time shows "Error". */
  lemma MissingValue(sensorType: Field)
    ensures Translate(sensorType, None) ==
            if sensorType == StatoWiFi then Some("Unknown")
            else if sensorType == RemTime then Some("Error")
            else None
  {
    TranslateFollowsRules(sensorType, None);
  }

  /** The Wi-Fi status has exactly three states: "1" is remote control, "0"
      is no remote control, and every other value, a missing one included,
      is unknown. */
  lemma WifiStatus(raw: Option<string>)
    ensures Translate(StatoWiFi, raw) in {Some("Remote Control"), Some("No Remote Control"), Some("Unknown")}
    ensures Translate(StatoWiFi, raw) == Some("Remote Control") <==> raw == Some("1")
    ensures Translate(StatoWiFi, raw) == Some("No Remote Control") <==> raw == Some("0")
  {
  }

  /** The error code "E0" reads as healthy; every other code is shown as it
      came. */
  lemma ErrorCode(raw: Option<string>)
    ensures raw == Some("E0") ==> Translate(CodiceErrore, raw) == Some("Healthy")
    ensures raw != Some("E0") ==> Translate(CodiceErrore, raw) == raw
  {
  }

  /** The on/off fields: "0" and "1" get two different labels, neither of
      which is itself "0" or "1"; any other value is shown as it came. */
  lemma ToggleField(sensorType: Field, raw: Option<string>)
    requires IsToggle(sensorType)
    ensures Translate(sensorType, Some("0")) != Translate(sensorType, Some("1"))
    ensures Translate(sensorType, Some("0")) !in {Some("0"), Some("1"), None}
    ensures Translate(sensorType, Some("1")) !in {Some("0"), Some("1"), None}
    ensures raw != Some("0") && raw != Some("1") ==> Translate(sensorType, raw) == raw
  {
  }

  /** The dishwasher and washing-machine state tables name the codes "0" to
      "5" alike except "4" (drying against spin): the two state sensors show
      the same thing for every raw value but "4". */
  lemma MachineStatesDifferOnlyAtFour(raw: Option<string>)
    ensures Translate(StatoDWash, raw) == Translate(StatoLavatrice, raw) <==> raw != Some("4")
  {
    if raw == Some("4") {
      assert Translate(StatoDWash, raw) == Some("DRYING");
    }
  }

  /** The machine-state codes "0" to "5" all have a label, and a code outside
      them is shown as it came. */
  lemma MachineStateCodes(sensorType: Field, code: string)
    requires sensorType == StatoDWash || sensorType == StatoLavatrice
    ensures code in {"0", "1", "2", "3", "4", "5"} ==>
              Translate(sensorType, Some(code)) != Some(code)
    ensures code !in {"0", "1", "2", "3", "4", "5"} ==>
              Translate(sensorType, Some(code)) == Some(code)
  {
  }

  /** The remaining time of `n` minutes reads "h hours m minutes" for the
      one pair with `60 * h + m == n` and `0 <= m < 60`: Python's floor
      division, so a negative count gives negative hours and positive
      minutes. */
  lemma RemTimeMinutes(raw: string, n: int, h: int, m: int)
    requires ParseInt(raw) == Some(n)
    requires 60 * h + m == n && 0 <= m < 60
    ensures Translate(RemTime, Some(raw)) ==
            Some(FormatInt(h) + " hours " + FormatInt(m) + " minutes")
  {
    RemTimeParsed(raw, n);
    FloorDivision(n, h, m);
    assert HoursMinutes(n) == FormatInt(h) + " hours " + FormatInt(m) + " minutes";
  }

  lemma RemTimeParsed(raw: string, n: int)
    requires ParseInt(raw) == Some(n)
    ensures Translate(RemTime, Some(raw)) == Some(HoursMinutes(n))
  {
    MinutesParsed(raw, n);
    DisplayOfMinutes(Some(raw), n);
    RemTimeShows(Some(raw));
  }

  lemma MinutesParsed(s: string, n: int)
    requires ParseInt(s) == Some(n)
    ensures MinutesOf(Some(s)) == Some(n)
  {
  }

  lemma DisplayOfMinutes(raw: Option<string>, n: int)
    requires MinutesOf(raw) == Some(n)
    ensures RemTimeDisplay(raw) == HoursMinutes(n)
  {
  }

  lemma RemTimeShows(raw: Option<string>)
    ensures Translate(RemTime, raw) == Some(RemTimeDisplay(raw))
  {
  }

  /** The quotient and remainder by 60 are the only pair with
      `60 * h + m == n` and `0 <= m < 60`. */
  lemma FloorDivision(n: int, h: int, m: int)
    requires 60 * h + m == n && 0 <= m < 60
    ensures n / 60 == h && n % 60 == m
  {
  }

  /** A value `int()` rejects, or a missing value, reads "Error"; any
      accepted value reads as hours and minutes, never "Error". */
  lemma RemTimeError(raw: Option<string>)
    ensures Translate(RemTime, raw) == Some("Error") <==> raw.None? || ParseInt(raw.value).None?
  {
    RemTimeShows(raw);
    DisplayError(raw);
  }

  lemma DisplayError(raw: Option<string>)
    ensures RemTimeDisplay(raw) == "Error" <==> MinutesOf(raw).None?
  {
    if MinutesOf(raw).Some? {
      HoursMinutesNotError(MinutesOf(raw).value);
    }
  }

  lemma HoursMinutesNotError(n: int)
    ensures HoursMinutes(n) != "Error"
  {
    var text := HoursMinutes(n);
    assert text[|text| - 1] == 's' != "Error"[|"Error"| - 1];
  }

  /** The minutes the device reports, spelt by `str`, come back as the hours
      and minutes they make up. */
  lemma RemTimeOfCount(n: int)
    requires DigitCount(n) <= MaxStrDigits
    ensures Translate(RemTime, Some(FormatInt(n))) ==
            Some(FormatInt(n / 60) + " hours " + FormatInt(n % 60) + " minutes")
    ensures 60 * (n / 60) + n % 60 == n && 0 <= n % 60 < 60
  {
    ParseFormatInt(n);
    RemTimeMinutes(FormatInt(n), n, n / 60, n % 60);
  }

  /** Translating an already translated value changes nothing more on every
      field whose labels are not themselves codes of that field; the two
      exceptions are the Wi-Fi status (a label reads as "Unknown") and the
      remaining time (a label is not an integer, so it reads as "Error"). */
  lemma TranslateIdempotent(sensorType: Field, raw: Option<string>)
    requires sensorType != StatoWiFi && sensorType != RemTime
    ensures Translate(sensorType, Translate(sensorType, raw)) == Translate(sensorType, raw)
  {
    TranslateFollowsRules(sensorType, raw);
    TranslateFollowsRules(sensorType, Translate(sensorType, raw));
    if RuleOf(sensorType).Some? {
      OpenLabelsAreNotCodes(sensorType);
      OpenIdempotent(RuleOf(sensorType).value.labels, raw);
    }
  }

  lemma OpenIdempotent(labels: map<string, string>, raw: Option<string>)
    requires forall k :: k in labels ==> labels[k] !in labels
    ensures StatesGet(labels, StatesGet(labels, raw)) == StatesGet(labels, raw)
  {
  }

  /** No label of an open table is one of its codes. */
  predicate LabelsNotCodes(rule: Rule) {
    rule.Open? && forall k :: k in rule.labels ==> rule.labels[k] !in rule.labels
  }

  /** A table whose codes are all shorter than its labels maps no label
      to a label. */
  lemma ShortCodes(labels: map<string, string>, width: nat)
    requires forall k :: k in labels ==> |k| <= width < |labels[k]|
    ensures LabelsNotCodes(Open(labels))
  {
  }

  lemma DishwasherTableShortCodes()
    ensures LabelsNotCodes(Open(DishwasherStates))
  {
    ShortCodes(DishwasherStates, 1);
  }

  lemma WasherTableShortCodes()
    ensures LabelsNotCodes(Open(WasherStates))
  {
    ShortCodes(WasherStates, 1);
  }

  lemma ErrorTableShortCodes()
    ensures LabelsNotCodes(Open(map["E0" := "Healthy"]))
  {
    ShortCodes(map["E0" := "Healthy"], 2);
  }

  lemma ProgramTableShortCodes()
    ensures LabelsNotCodes(Open(ProgramNames))
  {
    ShortCodes(ProgramNames, 3);
  }

  lemma OnOffShortCodes(zero: string, one: string)
    requires |zero| > 1 && |one| > 1
    ensures LabelsNotCodes(OnOff(zero, one))
  {
    ShortCodes(map["0" := zero, "1" := one], 1);
  }

  lemma OpenLabelsAreNotCodes(sensorType: Field)
    requires RuleOf(sensorType).Some? && sensorType != StatoWiFi && sensorType != RemTime
    ensures LabelsNotCodes(RuleOf(sensorType).value)
  {
    match sensorType
    case CodiceErrore => ErrorTableShortCodes();
    case Program => ProgramTableShortCodes();
    case StatoDWash => DishwasherTableShortCodes();
    case StatoLavatrice => WasherTableShortCodes();
    case MissSalt => OnOffShortCodes("Salt OK", "Salt Missing");
    case MissRinse => OnOffShortCodes("Rinse OK", "Rinse Missing");
    case OpenDoor => OnOffShortCodes("Closed", "Open");
    case MetaCarico => OnOffShortCodes("Full Load", "Half Load");
    case _ => OnOffShortCodes("Disabled", "Enabled");
  }

  /** Translating the Wi-Fi status twice always reads "Unknown": the
      labels are not the codes "0" and "1". */
  lemma WifiNotIdempotent(raw: Option<string>)
    ensures Translate(StatoWiFi, Translate(StatoWiFi, raw)) == Some("Unknown")
  {
  }

  // ---------------------------------------------------------------------
  // A sensor's state across updates
  // ---------------------------------------------------------------------

  /** The polled status: device-type tag to that device's field codes and
      raw values. */
  type Status = map<string, map<string, string>>

  /** What a sensor entity holds: its state (`None` when the raw value is
      missing and the field has no branch producing a string) and its extra
      state attributes. */
  datatype SensorState = SensorState(state: Option<string>, attributes: map<string, string>)

  /** `json_data.get(device_type, {}).get(sensor_type)`. */
  function RawValue(status: Status, deviceType: string, sensorType: Field): (r: Option<string>)
    ensures r.Some? <==> deviceType in status && Code(sensorType) in status[deviceType]
    ensures r.Some? ==> r.value == status[deviceType][Code(sensorType)]
  {
    Get(if deviceType in status then status[deviceType] else map[], Code(sensorType))
  }

  /** `_update_state`: with no polled status (none yet, or an empty object)
      the sensor reads "error" and its attributes become the error
      attribute; otherwise its state is the translation of the raw value and
      its attributes are left as they were. */
  function UpdateState(sensor: SensorState, status: Option<Status>, deviceType: string, sensorType: Field): (r: SensorState)
    ensures status.None? || status == Some(map[]) ==>
              r.state == Some("error") && r.attributes == map["error" := "Data not available"]
    ensures status.Some? && status != Some(map[]) ==>
              r.attributes == sensor.attributes
              && r.state == Translate(sensorType, RawValue(status.value, deviceType, sensorType))
  {
    if status.Some? && status.value != map[] then
      SensorState(Translate(sensorType, RawValue(status.value, deviceType, sensorType)), sensor.attributes)
    else
      SensorState(Some("error"), map["error" := "Data not available"])
  }

  /** The sensor after a run of updates, oldest first. */
  function Replay(sensor: SensorState, updates: seq<Option<Status>>, deviceType: string, sensorType: Field): SensorState
    decreases |updates|
  {
    if |updates| == 0 then sensor
    else Replay(UpdateState(sensor, updates[0], deviceType, sensorType), updates[1..], deviceType, sensorType)
  }

  /** Once a sensor has been through an update without data, its error
      attribute stays through every later update, successful ones included:
      nothing clears it. */
  lemma {:induction false} ErrorAttributeSticks(sensor: SensorState, updates: seq<Option<Status>>,
                                                deviceType: string, sensorType: Field)
    requires |updates| > 0 && (updates[0].None? || updates[0] == Some(map[]))
    ensures "error" in Replay(sensor, updates, deviceType, sensorType).attributes
    ensures Replay(sensor, updates, deviceType, sensorType).attributes["error"] == "Data not available"
    decreases |updates|
  {
    if |updates| > 1 {
      var first := UpdateState(sensor, updates[0], deviceType, sensorType);
      KeepsAttributes(first, updates[1..], deviceType, sensorType);
    }
  }

  lemma {:induction false} KeepsAttributes(sensor: SensorState, updates: seq<Option<Status>>,
                                           deviceType: string, sensorType: Field)
    requires sensor.attributes == map["error" := "Data not available"]
    ensures Replay(sensor, updates, deviceType, sensorType).attributes == map["error" := "Data not available"]
    decreases |updates|
  {
    if |updates| > 0 {
      KeepsAttributes(UpdateState(sensor, updates[0], deviceType, sensorType), updates[1..], deviceType, sensorType);
    }
  }
}

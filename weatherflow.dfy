/**
 * The WeatherFlow Tempest plug-in: it fetches one station's observations,
 * copies nine of their fields into the module-global `extraData` dictionary
 * (each with an expiry time) and hands that dictionary to the host.
 */
module AllskyWeatherFlowTempest {
  import opened Wrappers
  import opened Py

  /** A decoded JSON value. `JNull` is JSON `null` and Python's `None` alike. */
  datatype Json =
    | JNull
    | JBool(b: bool)
    | JNum(n: real)
    | JStr(s: string)
    | JList(items: seq<Json>)
    | JObj(fields: map<string, Json>)

  /** A step that may raise: `Raised` is any exception other than `KeyError`. */
  datatype Attempt<T> = Ok(value: T) | Raised

  /** `needle in hay` on strings: `needle` occurs in `hay` as a substring. */
  predicate Occurs(needle: string, hay: string)
    decreases |hay|
  {
    |needle| <= |hay| && (hay[..|needle|] == needle || Occurs(needle, hay[1..]))
  }

  /** A substring is never longer than the text it occurs in. */
  lemma {:induction false} OccursShorter(needle: string, hay: string)
    requires Occurs(needle, hay)
    ensures |needle| <= |hay|
  {
  }

  /** `needle` sits at position `i` of `hay`. */
  predicate At(needle: string, hay: string, i: int) {
    0 <= i <= |hay| - |needle| && hay[i..i + |needle|] == needle
  }

  /** `needle in hay` holds exactly when `needle` sits at some position of `hay`. */
  lemma {:induction false} OccursAt(needle: string, hay: string)
    ensures Occurs(needle, hay) <==> exists i :: At(needle, hay, i)
    decreases |hay|
  {
    if Occurs(needle, hay) {
      if hay[..|needle|] == needle {
        assert At(needle, hay, 0);
      } else {
        OccursAt(needle, hay[1..]);
        var i :| At(needle, hay[1..], i);
        assert hay[1..][i..i + |needle|] == hay[i + 1..i + 1 + |needle|];
        assert At(needle, hay, i + 1);
      }
    }
    if exists i :: At(needle, hay, i) {
      var i :| At(needle, hay, i);
      if i > 0 {
        assert hay[1..][i - 1..i - 1 + |needle|] == hay[i..i + |needle|];
        assert At(needle, hay[1..], i - 1);
        OccursAt(needle, hay[1..]);
      } else {
        assert hay[..|needle|] == needle;
      }
    }
  }

  /**
   * `key in data` followed by `data[key]` when it holds: `Ok(None)` for an
   * absent key. A number, boolean or `None` cannot be searched and a string
   * or list cannot be indexed by a string: both raise TypeError.
   */
  function Lookup(key: string, data: Json): Attempt<Option<Json>> {
    match data
    case JObj(m) => Ok(if key in m then Some(m[key]) else None)
    case JStr(s) => if Occurs(key, s) then Raised else Ok(None)
    case JList(xs) => if JStr(key) in xs then Raised else Ok(None)
    case _ => Raised
  }

  /** `getValue(key, data)` (lines 143-148): `data[key]` when the key is there, `None` when it is not. */
  function GetValue(key: string, data: Json): Attempt<Json> {
    match Lookup(key, data)
    case Raised => Raised
    case Ok(found) => Ok(found.GetOr(JNull))
  }

  /** On an observation record the lookup returns the field, or `None` for a missing one. */
  lemma GetValueOfRecord(key: string, m: map<string, Json>)
    ensures key in m ==> GetValue(key, JObj(m)) == Ok(m[key])
    ensures key !in m ==> GetValue(key, JObj(m)) == Ok(JNull)
  {
  }

  /** A one-character string contains none of the (longer) field names, so nothing is found in it. */
  lemma GetValueOfChar(key: string, c: char)
    requires |key| >= 2
    ensures GetValue(key, JStr([c])) == Ok(JNull)
  {
    if Occurs(key, [c]) {
      OccursShorter(key, [c]);
    }
  }

  /** The temperature scales `units` can select. */
  datatype TempScale = Fahrenheit | Celsius | Kelvin

  /** Lines 155-163: "imperial", "metric" and "standard"; any other text selects nothing. */
  function ScaleOf(units: string): (r: Option<TempScale>)
    ensures r.Some? <==> units in ["imperial", "metric", "standard"]
  {
    if units == "imperial" then Some(Fahrenheit)
    else if units == "metric" then Some(Celsius)
    else if units == "standard" then Some(Kelvin)
    else None
  }

  /**
   * `float(v)` on a decoded value: numbers as they are, booleans as 1 and 0,
   * strings through `parse` (Python's float syntax, `None` for ValueError);
   * `None`, lists and dictionaries raise TypeError.
   */
  function FloatOf(v: Json, parse: string -> Option<real>): Option<real> {
    match v
    case JNum(r) => Some(r)
    case JBool(b) => Some(if b then 1.0 else 0.0)
    case JStr(s) => parse(s)
    case _ => None
  }

  /**
   * `getTempValue(key, data, units)` (lines 150-164). `convert(t, scale)`
   * stands for `round(Temp(t, 'c').<scale>, 1)`. The value goes through
   * `float()` before `units` is looked at.
   */
  function GetTempValue(key: string, data: Json, units: string,
                        parse: string -> Option<real>, convert: (real, TempScale) -> real): (r: Attempt<Json>)
    ensures r.Ok? ==> r.value.JNull? || r.value.JNum?
  {
    match Lookup(key, data)
    case Raised => Raised
    case Ok(None) => Ok(JNull)
    case Ok(Some(v)) =>
      match FloatOf(v, parse)
      case None => Raised
      case Some(t) =>
        match ScaleOf(units)
        case None => Ok(JNull)
        case Some(scale) => Ok(JNum(convert(t, scale)))
  }

  /**
   * On an observation record `getTempValue` gives `None` exactly when the
   * key is absent, or when the value converts and `units` names no scale.
   */
  lemma GetTempValueNone(key: string, m: map<string, Json>, units: string,
                         parse: string -> Option<real>, convert: (real, TempScale) -> real)
    ensures GetTempValue(key, JObj(m), units, parse, convert) == Ok(JNull)
      <==> key !in m || (FloatOf(m[key], parse).Some? && ScaleOf(units).None?)
    ensures key in m && FloatOf(m[key], parse).None? ==> GetTempValue(key, JObj(m), units, parse, convert) == Raised
    ensures key in m && FloatOf(m[key], parse).Some? && ScaleOf(units).Some? ==>
      GetTempValue(key, JObj(m), units, parse, convert)
        == Ok(JNum(convert(FloatOf(m[key], parse).value, ScaleOf(units).value)))
  {
  }

  /** A JSON `null` temperature is not skipped like a missing one: `float(None)` raises. */
  lemma NullTemperatureRaises(key: string, m: map<string, Json>, units: string,
                              parse: string -> Option<real>, convert: (real, TempScale) -> real)
    requires key in m && m[key] == JNull
    ensures GetTempValue(key, JObj(m), units, parse, convert) == Raised
  {
  }

  /** One value of `extraData`. */
  datatype Entry = Entry(value: Json, expires: int)

  /** `extraData` after `setExtraValue(value, extraKey, expires)` (lines 133-140). */
  function Inserted(extra: map<string, Entry>, value: Json, extraKey: string, expires: int): (r: map<string, Entry>)
    ensures value == JNull ==> r == extra
    ensures value != JNull ==> extraKey in r && r[extraKey] == Entry(value, expires)
    ensures forall k :: k != extraKey ==> (k in r <==> k in extra) && (k in r ==> r[k] == extra[k])
  {
    if value == JNull then extra else extra[extraKey := Entry(value, expires)]
  }

  /** A later store of the same key overwrites the earlier one. */
  lemma InsertedOverwrites(extra: map<string, Entry>, v1: Json, v2: Json, key: string, e1: int, e2: int)
    requires v2 != JNull
    ensures Inserted(Inserted(extra, v1, key, e1), v2, key, e2) == Inserted(extra, v2, key, e2)
  {
  }

  /** One line of `processResult`: an observation field, its `extraData` key, and whether it is a temperature. */
  datatype Field = Field(source: string, target: string, isTemp: bool)

  /** Lines 95-123 in order. */
  const Fields: seq<Field> := [
    Field("air_temperature", "WFAIR_TEMPERATURE", true),
    Field("feels_like", "WFFEELS_LIKE", true),
    Field("heat_index", "WFHEAT_INDEX", true),
    Field("wind_chill", "WFWIND_CHILL", true),
    Field("dew_point", "WFDEW_POINT", true),
    Field("barometric_pressure", "WFPRESSURE", false),
    Field("relative_humidity", "WFREL_HUMIDITY", false),
    Field("wind_avg", "WFWIND_AVG", false),
    Field("brightness", "WFBRIGHTNESS", false)
  ]

  /** The `extraData` keys a list of fields writes. */
  function TargetsOf(fields: seq<Field>): set<string> {
    if |fields| == 0 then {} else {fields[0].target} + TargetsOf(fields[1..])
  }

  /** The nine keys `processResult` may write. */
  const TargetKeys: set<string> := {"WFAIR_TEMPERATURE", "WFFEELS_LIKE", "WFHEAT_INDEX", "WFWIND_CHILL", "WFDEW_POINT",
                                    "WFPRESSURE", "WFREL_HUMIDITY", "WFWIND_AVG", "WFBRIGHTNESS"}

  lemma NineTargets()
    ensures TargetsOf(Fields) == TargetKeys
  {
    assert TargetsOf(Fields[8..]) == {"WFBRIGHTNESS"} by { assert Fields[8..][1..] == []; }
    assert TargetsOf(Fields[7..]) == {"WFWIND_AVG", "WFBRIGHTNESS"} by { assert Fields[7..][1..] == Fields[8..]; }
    assert TargetsOf(Fields[6..]) == {"WFREL_HUMIDITY", "WFWIND_AVG", "WFBRIGHTNESS"} by { assert Fields[6..][1..] == Fields[7..]; }
    assert TargetsOf(Fields[5..]) == {"WFPRESSURE", "WFREL_HUMIDITY", "WFWIND_AVG", "WFBRIGHTNESS"} by {
      assert Fields[5..][1..] == Fields[6..];
    }
    assert TargetsOf(Fields[4..]) == {"WFDEW_POINT", "WFPRESSURE", "WFREL_HUMIDITY", "WFWIND_AVG", "WFBRIGHTNESS"} by {
      assert Fields[4..][1..] == Fields[5..];
    }
    assert TargetsOf(Fields[3..]) == {"WFWIND_CHILL", "WFDEW_POINT", "WFPRESSURE", "WFREL_HUMIDITY", "WFWIND_AVG", "WFBRIGHTNESS"} by {
      assert Fields[3..][1..] == Fields[4..];
    }
    assert TargetsOf(Fields[2..]) == {"WFHEAT_INDEX", "WFWIND_CHILL", "WFDEW_POINT", "WFPRESSURE", "WFREL_HUMIDITY",
                                      "WFWIND_AVG", "WFBRIGHTNESS"} by {
      assert Fields[2..][1..] == Fields[3..];
    }
    assert TargetsOf(Fields[1..]) == {"WFFEELS_LIKE", "WFHEAT_INDEX", "WFWIND_CHILL", "WFDEW_POINT", "WFPRESSURE",
                                      "WFREL_HUMIDITY", "WFWIND_AVG", "WFBRIGHTNESS"} by {
      assert Fields[1..][1..] == Fields[2..];
    }
  }

  /** No two lines of `processResult` write the same key: the keys differ in length or in their third letter. */
  lemma DistinctTargets()
    ensures forall a, b :: 0 <= a < b < |Fields| ==> Fields[a].target != Fields[b].target
  {
    var tags := [(17, 'A'), (12, 'F'), (12, 'H'), (12, 'W'), (11, 'D'), (10, 'P'), (14, 'R'), (10, 'W'), (12, 'B')];
    assert forall a :: 0 <= a < |Fields| ==> (|Fields[a].target|, Fields[a].target[2]) == tags[a];
  }

  /** The value one line of `processResult` stores. */
  function FieldValue(f: Field, data: Json, units: string,
                      parse: string -> Option<real>, convert: (real, TempScale) -> real): Attempt<Json> {
    if f.isTemp then GetTempValue(f.source, data, units, parse, convert) else GetValue(f.source, data)
  }

  /** How far `processResult` got: the dictionary, and whether every line ran. */
  datatype Progress = Progress(extra: map<string, Entry>, completed: bool)

  /**
   * The stores of `fields`, one after the other; the first line that raises
   * ends the run with the earlier stores kept.
   */
  function ApplyFields(fields: seq<Field>, extra: map<string, Entry>, data: Json, expires: int, units: string,
                       parse: string -> Option<real>, convert: (real, TempScale) -> real): Progress
    decreases |fields|
  {
    if |fields| == 0 then Progress(extra, true)
    else
      match FieldValue(fields[0], data, units, parse, convert)
      case Raised => Progress(extra, false)
      case Ok(v) => ApplyFields(fields[1..], Inserted(extra, v, fields[0].target, expires), data, expires, units, parse, convert)
  }

  /**
   * Whatever the data, the stores of `fields` remove no key, touch no key
   * outside their targets, and stamp every entry they change with `expires`.
   */
  lemma {:induction false} AppliedFrame(fields: seq<Field>, extra: map<string, Entry>, data: Json, expires: int,
                                        units: string, parse: string -> Option<real>, convert: (real, TempScale) -> real)
    ensures var r := ApplyFields(fields, extra, data, expires, units, parse, convert).extra;
      && (forall k :: k in extra ==> k in r)
      && (forall k :: k !in TargetsOf(fields) ==> (k in r <==> k in extra) && (k in r ==> r[k] == extra[k]))
      && (forall k :: k in r ==> (k in extra && r[k] == extra[k]) || r[k].expires == expires)
    decreases |fields|
  {
    if |fields| > 0 {
      match FieldValue(fields[0], data, units, parse, convert)
      case Raised =>
      case Ok(v) =>
        AppliedFrame(fields[1..], Inserted(extra, v, fields[0].target, expires), data, expires, units, parse, convert);
    }
  }

  /** Every line ran exactly when no line raised. */
  lemma {:induction false} CompletedIffNoneRaised(fields: seq<Field>, extra: map<string, Entry>, data: Json, expires: int,
                                                  units: string, parse: string -> Option<real>, convert: (real, TempScale) -> real)
    ensures ApplyFields(fields, extra, data, expires, units, parse, convert).completed
      <==> forall i :: 0 <= i < |fields| ==> FieldValue(fields[i], data, units, parse, convert).Ok?
    decreases |fields|
  {
    if |fields| > 0 {
      match FieldValue(fields[0], data, units, parse, convert)
      case Raised =>
      case Ok(v) =>
        CompletedIffNoneRaised(fields[1..], Inserted(extra, v, fields[0].target, expires), data, expires, units, parse, convert);
        assert forall i :: 1 <= i < |fields| ==> fields[i] == fields[1..][i - 1];
    }
  }

  /**
   * When every line ran and the keys are distinct, key `fields[j].target`
   * holds line `j`'s value with the run's expiry, or keeps its earlier entry
   * (or stays absent) when that value was `None`.
   */
  lemma {:induction false} AppliedField(fields: seq<Field>, extra: map<string, Entry>, data: Json, expires: int, units: string,
                                        parse: string -> Option<real>, convert: (real, TempScale) -> real, j: nat)
    requires j < |fields|
    requires forall a, b :: 0 <= a < b < |fields| ==> fields[a].target != fields[b].target
    requires ApplyFields(fields, extra, data, expires, units, parse, convert).completed
    ensures FieldValue(fields[j], data, units, parse, convert).Ok?
    ensures var v, p, t := FieldValue(fields[j], data, units, parse, convert).value,
                           ApplyFields(fields, extra, data, expires, units, parse, convert).extra, fields[j].target;
      if v == JNull then (t in p <==> t in extra) && (t in p ==> p[t] == extra[t])
      else t in p && p[t] == Entry(v, expires)
    decreases |fields|
  {
    var v0 := FieldValue(fields[0], data, units, parse, convert);
    assert v0.Ok?;
    var next := Inserted(extra, v0.value, fields[0].target, expires);
    var rest := fields[1..];
    if j == 0 {
      TargetFree(rest, fields[0].target);
      AppliedFrame(rest, next, data, expires, units, parse, convert);
      assert forall a, b :: 0 <= a < b < |rest| ==> rest[a].target != rest[b].target by {
        assert forall a :: 0 <= a < |rest| ==> rest[a] == fields[a + 1];
      }
    } else {
      assert forall a, b :: 0 <= a < b < |rest| ==> rest[a].target != rest[b].target by {
        assert forall a :: 0 <= a < |rest| ==> rest[a] == fields[a + 1];
      }
      AppliedField(rest, next, data, expires, units, parse, convert, j - 1);
      assert rest[j - 1] == fields[j];
      assert fields[j].target != fields[0].target;
    }
  }

  /** A key no field of `fields` names is not among their targets. */
  lemma {:induction false} TargetFree(fields: seq<Field>, key: string)
    requires forall i :: 0 <= i < |fields| ==> fields[i].target != key
    ensures key !in TargetsOf(fields)
    decreases |fields|
  {
    if |fields| > 0 {
      assert forall i :: 0 <= i < |fields| - 1 ==> fields[1..][i] == fields[i + 1];
      TargetFree(fields[1..], key);
    }
  }

  /** A field missing from the observation leaves the entry an earlier run stored under its key. */
  lemma StaleEntryKept(extra: map<string, Entry>, m: map<string, Json>, expires: int, units: string,
                       parse: string -> Option<real>, convert: (real, TempScale) -> real, j: nat)
    requires j < |Fields| && Fields[j].source !in m && Fields[j].target in extra
    ensures var p := ApplyFields(Fields, extra, JObj(m), expires, units, parse, convert).extra;
      Fields[j].target in p && p[Fields[j].target] == extra[Fields[j].target]
  {
    DistinctTargets();
    var key := Fields[j].target;
    assert FieldValue(Fields[j], JObj(m), units, parse, convert) == Ok(JNull);
    assert forall i :: 0 <= i < |Fields| && Fields[i].target == key ==> i == j;
    KeptEntry(Fields, extra, JObj(m), expires, units, parse, convert, key);
  }

  /**
   * An entry survives the run, whether or not a later line raises, when every
   * line that names its key stores `None` or raises.
   */
  lemma {:induction false} KeptEntry(fields: seq<Field>, extra: map<string, Entry>, data: Json, expires: int, units: string,
                                     parse: string -> Option<real>, convert: (real, TempScale) -> real, key: string)
    requires key in extra
    requires forall i :: 0 <= i < |fields| && fields[i].target == key ==>
      var v := FieldValue(fields[i], data, units, parse, convert); v.Raised? || v.value == JNull
    ensures var p := ApplyFields(fields, extra, data, expires, units, parse, convert).extra;
      key in p && p[key] == extra[key]
    decreases |fields|
  {
    if |fields| > 0 {
      match FieldValue(fields[0], data, units, parse, convert)
      case Raised =>
      case Ok(v) =>
        var next := Inserted(extra, v, fields[0].target, expires);
        assert key in next && next[key] == extra[key];
        assert forall i :: 0 <= i < |fields| - 1 ==> fields[1..][i] == fields[i + 1];
        KeptEntry(fields[1..], next, data, expires, units, parse, convert, key);
    }
  }

  /** A plain field present in the observation is stored as it is, with the run's expiry. */
  lemma PlainFieldStored(extra: map<string, Entry>, m: map<string, Json>, expires: int, units: string,
                         parse: string -> Option<real>, convert: (real, TempScale) -> real, j: nat)
    requires j < |Fields| && !Fields[j].isTemp && Fields[j].source in m && m[Fields[j].source] != JNull
    requires ApplyFields(Fields, extra, JObj(m), expires, units, parse, convert).completed
    ensures var p := ApplyFields(Fields, extra, JObj(m), expires, units, parse, convert).extra;
      Fields[j].target in p && p[Fields[j].target] == Entry(m[Fields[j].source], expires)
  {
    DistinctTargets();
    AppliedField(Fields, extra, JObj(m), expires, units, parse, convert, j);
  }

  /** The outcome `weatherflowtempest` returns (its `result` text). */
  datatype Reply =
    | LastRun(diff: int, period: int)   // "Last run {diff} seconds ago. Running every {period} seconds"
    | MissingFilename                   // "Missing filename for data"
    | MissingApiKey                     // "Missing WeatherFlow API key"
    | MissingHome                       // "Cannot find ALLSKY_HOME Environment variable"
    | Failed                            // str(e) of the exception caught at line 223
    | HttpError(code: int)              // "Got error from WeatherFlow API. Response code {code}"
    | NotSuccessful(message: string)    // "Data acquired was not successful: {message}"
    | NoStation(stationnum: string)     // "Data acquired does not have data for station number {stationnum}"
    | Written(fileName: string)         // "Data acquired and written to extra data file {fileName}"

  /** What the plug-in hands to the host, in order. */
  datatype Event =
    | Print(text: string)                                          // print(...) to standard output
    | Log(level: int, reply: Reply)                                // s.log(level, "...: {result}")
    | SaveExtraData(fileName: string, data: map<string, Entry>)    // s.saveExtraData(fileName, extraData)
    | SetLastRun                                                   // s.setLastRun(module)

  /** The plug-in's settings, with `expire` and `period` already through `int()`. */
  datatype Config = Config(expire: int, period: int, apikey: string, stationid: string,
                           stationnum: string, fileName: string, units: string)

  /** What `requests.get` returns: the status code, and the decoded body (`None` when `json.loads` raised). */
  datatype Response = Response(status: int, body: Option<Json>)

  /** Line 187. */
  function RequestUrl(stationid: string, apikey: string): string {
    "https://swd.weatherflow.com/swd/rest/observations/station/" + stationid + "?token=" + apikey
  }

  /** Python's `v != 0` is false for the number 0 and for `False`, true for anything else. */
  predicate IsZero(v: Json) {
    v == JNum(0.0) || v == JBool(false)
  }

  /** `len(v)`; `None` for the values `len` raises TypeError on. */
  function Length(v: Json): Option<nat> {
    match v
    case JList(xs) => Some(|xs|)
    case JStr(s) => Some(|s|)
    case JObj(m) => Some(|m|)
    case _ => None
  }

  /** How the inner `try` of lines 194-218 classifies the decoded body. */
  datatype Verdict =
    | KeyErr                      // KeyError, caught at line 216
    | Err                         // another exception, caught at line 223
    | Unsuccessful(message: string)
    | Short                       // fewer stations than `stationnum`
    | Station(obs: Json)          // the record to process

  /** Line 209, `data["obs"][int(stationnum) - 1]` on a value whose length is at least `n`. */
  function SelectStation(obs: Json, n: int): (v: Verdict)
    ensures v.Station? || v == Err || v == KeyErr
  {
    match obs
    case JList(xs) => (match ListIndex(n - 1, |xs|) case Some(i) => Station(xs[i]) case None => Err)
    case JStr(s) => (match ListIndex(n - 1, |s|) case Some(i) => Station(JStr(s[i..i + 1])) case None => Err)
    case JObj(_) => KeyErr   // the keys of a decoded object are strings, never the integer n - 1
    case _ => Err
  }

  /**
   * Lines 195-209, given what `int(stationnum)` gives (`None` for
   * ValueError). The missing-`obs` branch concatenates the decoded
   * dictionary to a string, which raises TypeError, so it ends in `Err`.
   */
  function Classify(data: Json, station: Option<int>): Verdict {
    match data
    case JObj(m) =>
      if "status" !in m then KeyErr
      else (
        match m["status"]
        case JObj(st) =>
          if "status_code" !in st then KeyErr
          else if !IsZero(st["status_code"]) then
            if "status_message" !in st then KeyErr
            else (match st["status_message"] case JStr(msg) => Unsuccessful(msg) case _ => Err)
          else if "obs" !in m then Err
          else (
            match (Length(m["obs"]), station)
            case (Some(len), Some(n)) => if len < n then Short else SelectStation(m["obs"], n)
            case _ => Err)
        case _ => Err)
    case _ => Err
  }

  /** A non-zero status code ends the inner `try` before `obs` is looked at. */
  lemma StatusCheckedFirst(m: map<string, Json>, st: map<string, Json>, station: Option<int>)
    requires "status" in m && m["status"] == JObj(st) && "status_code" in st && !IsZero(st["status_code"])
    ensures var v := Classify(JObj(m), station);
      v.Unsuccessful? || v == KeyErr || v == Err
    ensures "status_message" in st && st["status_message"].JStr? ==>
      Classify(JObj(m), station) == Unsuccessful(st["status_message"].s)
  {
  }

  /** A body with a zero status code and no `obs` never gets the "missing 'obs'" message out: it raises. */
  lemma MissingObsRaises(m: map<string, Json>, st: map<string, Json>, station: Option<int>)
    requires "status" in m && m["status"] == JObj(st) && "status_code" in st && IsZero(st["status_code"])
    requires "obs" !in m
    ensures Classify(JObj(m), station) == Err
  {
  }

  /** With a zero status code and a list of stations, the count decides between the station error and processing. */
  lemma StationChosen(m: map<string, Json>, st: map<string, Json>, xs: seq<Json>, n: int)
    requires "status" in m && m["status"] == JObj(st) && "status_code" in st && IsZero(st["status_code"])
    requires "obs" in m && m["obs"] == JList(xs)
    ensures |xs| < n ==> Classify(JObj(m), Some(n)) == Short
    ensures 1 <= n <= |xs| ==> Classify(JObj(m), Some(n)) == Station(xs[n - 1])
    ensures n == 0 && |xs| > 0 ==> Classify(JObj(m), Some(n)) == Station(xs[|xs| - 1])
    ensures n == 0 && |xs| == 0 ==> Classify(JObj(m), Some(n)) == Err
  {
  }

  /** Station numbers from 1 up to the count index the list in bounds, no wrap-around. */
  lemma StationInBounds(xs: seq<Json>, n: int)
    requires 1 <= n <= |xs|
    ensures SelectStation(JList(xs), n) == Station(xs[n - 1])
  {
  }

  /** What one call does: the returned value (`None` for the bare `return`), the events, and `extraData` after it. */
  datatype Trace = Trace(result: Option<Reply>, events: seq<Event>, extra: map<string, Entry>)

  /** Lines 211-214 and 223-225 once `processResult` has run: save and report, or report its exception. */
  function Processed(cfg: Config, p: Progress): Trace {
    if p.completed then
      Trace(Some(Written(cfg.fileName)), [SaveExtraData(cfg.fileName, p.extra), Log(1, Written(cfg.fileName))], p.extra)
    else Trace(Some(Failed), [Log(0, Failed)], p.extra)
  }

  /** Lines 194-225 for a classified body. */
  function Respond(cfg: Config, v: Verdict, extra: map<string, Entry>,
                   parse: string -> Option<real>, convert: (real, TempScale) -> real): Trace {
    match v
    case KeyErr => Trace(None, [Print("Update failed")], extra)
    case Err => Trace(Some(Failed), [Log(0, Failed)], extra)
    case Unsuccessful(msg) => Trace(Some(NotSuccessful(msg)), [Log(1, NotSuccessful(msg))], extra)
    case Short => Trace(Some(NoStation(cfg.stationnum)), [Log(1, NoStation(cfg.stationnum))], extra)
    case Station(obs) => Processed(cfg, ApplyFields(Fields, extra, obs, cfg.expire, cfg.units, parse, convert))
  }

  /** Lines 189-225 for what `requests.get` and `json.loads` gave (`None`: the request raised). */
  function Received(cfg: Config, response: Option<Response>, extra: map<string, Entry>,
                    parse: string -> Option<real>, convert: (real, TempScale) -> real): Trace {
    match response
    case None => Trace(Some(Failed), [Log(0, Failed)], extra)
    case Some(r) =>
      if r.status != 200 then Trace(Some(HttpError(r.status)), [Log(0, HttpError(r.status))], extra)
      else (
        match r.body
        case None => Trace(Some(Failed), [Log(0, Failed)], extra)
        case Some(data) => Respond(cfg, Classify(data, ParseInt(cfg.stationnum)), extra, parse, convert))
  }

  /** Lines 182-234: the three configuration guards, then the request. */
  function Guarded(cfg: Config, home: Option<string>, extra: map<string, Entry>, get: string -> Option<Response>,
                   parse: string -> Option<real>, convert: (real, TempScale) -> real): Trace {
    if cfg.fileName == "" then Trace(Some(MissingFilename), [Log(0, MissingFilename)], extra)
    else if cfg.apikey == "" then Trace(Some(MissingApiKey), [Log(0, MissingApiKey)], extra)
    else if home.None? then Trace(Some(MissingHome), [Log(0, MissingHome)], extra)
    else
      var url := RequestUrl(cfg.stationid, cfg.apikey);
      var t := Received(cfg, get(url), extra, parse, convert);
      Trace(t.result, [Print(url)] + t.events, t.extra)
  }

  /**
   * `weatherflowtempest(params, event)` (lines 167-241). `shouldRun` and
   * `diff` are what `s.shouldRun` answered, `home` is ALLSKY_HOME, `get` is
   * `requests.get` followed by `json.loads`.
   */
  function Tempest(cfg: Config, shouldRun: bool, diff: int, home: Option<string>, extra: map<string, Entry>,
                   get: string -> Option<Response>, parse: string -> Option<real>, convert: (real, TempScale) -> real): Trace {
    if !shouldRun then Trace(Some(LastRun(diff, cfg.period)), [Log(1, LastRun(diff, cfg.period))], extra)
    else
      var t := Guarded(cfg, home, extra, get, parse, convert);
      if t.result.None? then t
      else Trace(t.result, t.events + [SetLastRun], t.extra)
  }

  /** `extraData` only grows: no key is removed, keys outside the nine are untouched, every changed entry carries `expire`. */
  ghost predicate Grows(before: map<string, Entry>, after: map<string, Entry>, expire: int) {
    && (forall k :: k in before ==> k in after)
    && (forall k :: k !in TargetKeys ==> (k in after <==> k in before) && (k in after ==> after[k] == before[k]))
    && (forall k :: k in after ==> (k in before && after[k] == before[k]) || after[k].expires == expire)
  }

  /**
   * What holds of every stage below the guard on `shouldRun`: no `setLastRun`
   * yet, a save exactly when the reply is "written", the saved dictionary is
   * the final one, and `extraData` only grows.
   */
  ghost predicate Sound(cfg: Config, extra: map<string, Entry>, t: Trace) {
    && SetLastRun !in t.events
    && ((exists e :: e in t.events && e.SaveExtraData?) <==> t.result == Some(Written(cfg.fileName)))
    && (forall e :: e in t.events && e.SaveExtraData? ==> e == SaveExtraData(cfg.fileName, t.extra))
    && Grows(extra, t.extra, cfg.expire)
  }

  /** The stores of `processResult` only let `extraData` grow. */
  lemma AppliedGrows(extra: map<string, Entry>, obs: Json, expires: int, units: string,
                     parse: string -> Option<real>, convert: (real, TempScale) -> real)
    ensures Grows(extra, ApplyFields(Fields, extra, obs, expires, units, parse, convert).extra, expires)
  {
    NineTargets();
    AppliedFrame(Fields, extra, obs, expires, units, parse, convert);
  }

  /** Saving and reporting after `processResult` keeps what `Sound` states, given that the stores kept `Grows`. */
  lemma ProcessedSound(cfg: Config, extra: map<string, Entry>, p: Progress)
    requires Grows(extra, p.extra, cfg.expire)
    ensures Sound(cfg, extra, Processed(cfg, p))
  {
    var t := Processed(cfg, p);
    if p.completed {
      assert t.events[0].SaveExtraData?;
    } else {
      assert t.events == [Log(0, Failed)];
    }
  }

  lemma RespondSound(cfg: Config, v: Verdict, extra: map<string, Entry>,
                     parse: string -> Option<real>, convert: (real, TempScale) -> real)
    ensures Sound(cfg, extra, Respond(cfg, v, extra, parse, convert))
    ensures Respond(cfg, v, extra, parse, convert).result.None? <==> v == KeyErr
  {
    match v
    case Station(obs) =>
      AppliedGrows(extra, obs, cfg.expire, cfg.units, parse, convert);
      ProcessedSound(cfg, extra, ApplyFields(Fields, extra, obs, cfg.expire, cfg.units, parse, convert));
    case KeyErr =>
      assert Respond(cfg, v, extra, parse, convert).events == [Print("Update failed")];
    case Err =>
    case Unsuccessful(msg) =>
    case Short =>
  }

  lemma ReceivedSound(cfg: Config, response: Option<Response>, extra: map<string, Entry>,
                      parse: string -> Option<real>, convert: (real, TempScale) -> real)
    ensures Sound(cfg, extra, Received(cfg, response, extra, parse, convert))
    ensures Received(cfg, response, extra, parse, convert).result.None? <==>
      response.Some? && response.value.status == 200 && response.value.body.Some?
      && Classify(response.value.body.value, ParseInt(cfg.stationnum)) == KeyErr
  {
    if response.Some? && response.value.status == 200 && response.value.body.Some? {
      RespondSound(cfg, Classify(response.value.body.value, ParseInt(cfg.stationnum)), extra, parse, convert);
    }
  }

  lemma GuardedSound(cfg: Config, home: Option<string>, extra: map<string, Entry>, get: string -> Option<Response>,
                     parse: string -> Option<real>, convert: (real, TempScale) -> real)
    ensures Sound(cfg, extra, Guarded(cfg, home, extra, get, parse, convert))
  {
    if cfg.fileName != "" && cfg.apikey != "" && home.Some? {
      var url := RequestUrl(cfg.stationid, cfg.apikey);
      var t := Received(cfg, get(url), extra, parse, convert);
      ReceivedSound(cfg, get(url), extra, parse, convert);
      PrependPrint(cfg, extra, url, t);
    }
  }

  /** Printing the URL first changes none of the facts `Sound` states. */
  lemma PrependPrint(cfg: Config, extra: map<string, Entry>, url: string, t: Trace)
    requires Sound(cfg, extra, t)
    ensures Sound(cfg, extra, Trace(t.result, [Print(url)] + t.events, t.extra))
  {
    var e := [Print(url)] + t.events;
    assert forall x :: x in e <==> x == Print(url) || x in t.events;
  }

  /** When the module is not due it only reports when it last ran. */
  lemma NotDue(cfg: Config, diff: int, home: Option<string>, extra: map<string, Entry>,
               get: string -> Option<Response>, parse: string -> Option<real>, convert: (real, TempScale) -> real)
    ensures Tempest(cfg, false, diff, home, extra, get, parse, convert)
      == Trace(Some(LastRun(diff, cfg.period)), [Log(1, LastRun(diff, cfg.period))], extra)
  {
  }

  /**
   * `setLastRun` is called exactly when the module was due and did not take
   * the bare `return` of line 218; it is then the last thing done.
   */
  lemma LastRunRecorded(cfg: Config, shouldRun: bool, diff: int, home: Option<string>, extra: map<string, Entry>,
                        get: string -> Option<Response>, parse: string -> Option<real>, convert: (real, TempScale) -> real)
    ensures var t := Tempest(cfg, shouldRun, diff, home, extra, get, parse, convert);
      (SetLastRun in t.events <==> shouldRun && t.result.Some?)
      && (SetLastRun in t.events ==> t.events[|t.events| - 1] == SetLastRun)
  {
    GuardedSound(cfg, home, extra, get, parse, convert);
  }

  /** The bare `return` (a KeyError in the body) is the only way the call returns `None`. */
  lemma NoneOnlyOnKeyError(cfg: Config, diff: int, home: Option<string>, extra: map<string, Entry>,
                           get: string -> Option<Response>, parse: string -> Option<real>, convert: (real, TempScale) -> real)
    ensures var t, r := Tempest(cfg, true, diff, home, extra, get, parse, convert), get(RequestUrl(cfg.stationid, cfg.apikey));
      t.result.None? <==>
        cfg.fileName != "" && cfg.apikey != "" && home.Some?
        && r.Some? && r.value.status == 200 && r.value.body.Some? && Classify(r.value.body.value, ParseInt(cfg.stationnum)) == KeyErr
  {
    if cfg.fileName != "" && cfg.apikey != "" && home.Some? {
      var url := RequestUrl(cfg.stationid, cfg.apikey);
      ReceivedSound(cfg, get(url), extra, parse, convert);
      var g := Received(cfg, get(url), extra, parse, convert);
      assert Guarded(cfg, home, extra, get, parse, convert).result == g.result;
    }
  }


  /** The configuration guards are checked in order, and each ends the call with one error log and `setLastRun`. */
  lemma GuardOrder(cfg: Config, diff: int, home: Option<string>, extra: map<string, Entry>,
                   get: string -> Option<Response>, parse: string -> Option<real>, convert: (real, TempScale) -> real)
    ensures var t := Tempest(cfg, true, diff, home, extra, get, parse, convert);
      && (cfg.fileName == "" ==> t == Trace(Some(MissingFilename), [Log(0, MissingFilename), SetLastRun], extra))
      && (cfg.fileName != "" && cfg.apikey == "" ==> t == Trace(Some(MissingApiKey), [Log(0, MissingApiKey), SetLastRun], extra))
      && (cfg.fileName != "" && cfg.apikey != "" && home.None? ==>
            t == Trace(Some(MissingHome), [Log(0, MissingHome), SetLastRun], extra))
  {
  }

  /** A status other than 200 is reported with its code; nothing is processed or saved. */
  lemma HttpErrorNotProcessed(cfg: Config, diff: int, home: Option<string>, extra: map<string, Entry>,
                              get: string -> Option<Response>, parse: string -> Option<real>, convert: (real, TempScale) -> real)
    requires cfg.fileName != "" && cfg.apikey != "" && home.Some?
    requires var r := get(RequestUrl(cfg.stationid, cfg.apikey)); r.Some? && r.value.status != 200
    ensures var t, code := Tempest(cfg, true, diff, home, extra, get, parse, convert), get(RequestUrl(cfg.stationid, cfg.apikey)).value.status;
      t == Trace(Some(HttpError(code)), [Print(RequestUrl(cfg.stationid, cfg.apikey)), Log(0, HttpError(code)), SetLastRun], extra)
  {
  }

  /** `extraData` is saved exactly when the call reports it written, and what is saved is the final dictionary. */
  lemma SavedIffWritten(cfg: Config, shouldRun: bool, diff: int, home: Option<string>, extra: map<string, Entry>,
                        get: string -> Option<Response>, parse: string -> Option<real>, convert: (real, TempScale) -> real)
    ensures var t := Tempest(cfg, shouldRun, diff, home, extra, get, parse, convert);
      (exists e :: e in t.events && e.SaveExtraData?) <==> t.result == Some(Written(cfg.fileName))
    ensures var t := Tempest(cfg, shouldRun, diff, home, extra, get, parse, convert);
      forall e :: e in t.events && e.SaveExtraData? ==> e == SaveExtraData(cfg.fileName, t.extra)
  {
    GuardedSound(cfg, home, extra, get, parse, convert);
    var g := Guarded(cfg, home, extra, get, parse, convert);
    assert forall x :: x in g.events + [SetLastRun] <==> x in g.events || x == SetLastRun;
  }

  /** Across a call `extraData` only grows, on every path, whatever the station sent. */
  lemma ExtraOnlyGrows(cfg: Config, shouldRun: bool, diff: int, home: Option<string>, extra: map<string, Entry>,
                       get: string -> Option<Response>, parse: string -> Option<real>, convert: (real, TempScale) -> real)
    ensures Grows(extra, Tempest(cfg, shouldRun, diff, home, extra, get, parse, convert).extra, cfg.expire)
  {
    GuardedSound(cfg, home, extra, get, parse, convert);
  }

  /** The plug-in's state: the module-global dictionary of line 89, kept across calls and never cleared. */
  class TempestModule {
    var extraData: map<string, Entry>

    /** Line 89: the dictionary starts empty when the module is loaded. */
    constructor ()
      ensures extraData == map[]
    {
      extraData := map[];
    }

    /** `setExtraValue(value, extraKey, expires)` (lines 133-140). */
    method SetExtraValue(value: Json, extraKey: string, expires: int)
      modifies this
      ensures extraData == Inserted(old(extraData), value, extraKey, expires)
    {
      if value != JNull {
        extraData := extraData[extraKey := Entry(value, expires)];
      }
    }

    /**
     * `processResult(data, expires, units)` (lines 91-123): the nine stores
     * in order. Returns false when a line raised; the stores before it stay.
     */
    method ProcessResult(data: Json, expires: int, units: string,
                         parse: string -> Option<real>, convert: (real, TempScale) -> real) returns (completed: bool)
      modifies this
      ensures Progress(extraData, completed) == ApplyFields(Fields, old(extraData), data, expires, units, parse, convert)
    {
      TableEnds();
      var stored;
      stored := StoreLine(0, data, expires, units, parse, convert);
      if !stored { return false; }
      stored := StoreLine(1, data, expires, units, parse, convert);
      if !stored { return false; }
      stored := StoreLine(2, data, expires, units, parse, convert);
      if !stored { return false; }
      stored := StoreLine(3, data, expires, units, parse, convert);
      if !stored { return false; }
      stored := StoreLine(4, data, expires, units, parse, convert);
      if !stored { return false; }
      stored := StoreLine(5, data, expires, units, parse, convert);
      if !stored { return false; }
      stored := StoreLine(6, data, expires, units, parse, convert);
      if !stored { return false; }
      stored := StoreLine(7, data, expires, units, parse, convert);
      if !stored { return false; }
      stored := StoreLine(8, data, expires, units, parse, convert);
      if !stored { return false; }
      return true;
    }

    /**
     * One line of `processResult`: `setExtraValue(getTempValue(...))` for a
     * temperature, `setExtraValue(getValue(...))` otherwise. False when the
     * lookup raised, and then nothing is stored.
     */
    method StoreLine(i: nat, data: Json, expires: int, units: string,
                     parse: string -> Option<real>, convert: (real, TempScale) -> real) returns (stored: bool)
      requires i < |Fields|
      modifies this
      ensures stored <==> FieldValue(Fields[i], data, units, parse, convert).Ok?
      ensures extraData == if stored then Inserted(old(extraData), FieldValue(Fields[i], data, units, parse, convert).value,
                                                   Fields[i].target, expires)
                           else old(extraData)
      ensures ApplyFields(Fields[i..], old(extraData), data, expires, units, parse, convert)
        == if stored then ApplyFields(Fields[i + 1..], extraData, data, expires, units, parse, convert)
           else Progress(extraData, false)
    {
      Step(i, extraData, data, expires, units, parse, convert);
      var f := Fields[i];
      var value;
      if f.isTemp {
        value := GetTempValue(f.source, data, units, parse, convert);
      } else {
        value := GetValue(f.source, data);
      }
      if value.Raised? {
        return false;
      }
      SetExtraValue(value.value, f.target, expires);
      return true;
    }

    /** Lines 189-225 after `requests.get`: check the status, decode, classify and process. */
    method Acquire(cfg: Config, response: Option<Response>, parse: string -> Option<real>, convert: (real, TempScale) -> real)
      returns (result: Option<Reply>, events: seq<Event>)
      modifies this
      ensures Trace(result, events, extraData) == Received(cfg, response, old(extraData), parse, convert)
    {
      if response.None? {
        return Some(Failed), [Log(0, Failed)];
      }
      if response.value.status != 200 {
        return Some(HttpError(response.value.status)), [Log(0, HttpError(response.value.status))];
      }
      if response.value.body.None? {
        return Some(Failed), [Log(0, Failed)];
      }
      var verdict := Classify(response.value.body.value, ParseInt(cfg.stationnum));
      result, events := HandleBody(cfg, verdict, parse, convert);
    }

    /** Lines 194-225 once the body is classified: report, or process the station's record and save. */
    method HandleBody(cfg: Config, verdict: Verdict, parse: string -> Option<real>, convert: (real, TempScale) -> real)
      returns (result: Option<Reply>, events: seq<Event>)
      modifies this
      ensures Trace(result, events, extraData) == Respond(cfg, verdict, old(extraData), parse, convert)
    {
      match verdict {
        case KeyErr =>
          result, events := None, [Print("Update failed")];
        case Err =>
          result, events := Some(Failed), [Log(0, Failed)];
        case Unsuccessful(msg) =>
          result, events := Some(NotSuccessful(msg)), [Log(1, NotSuccessful(msg))];
        case Short =>
          result, events := Some(NoStation(cfg.stationnum)), [Log(1, NoStation(cfg.stationnum))];
        case Station(obs) =>
          var completed := ProcessResult(obs, cfg.expire, cfg.units, parse, convert);
          if completed {
            events := [SaveExtraData(cfg.fileName, extraData)];
            result := Some(Written(cfg.fileName));
            events := events + [Log(1, Written(cfg.fileName))];
          } else {
            result, events := Some(Failed), [Log(0, Failed)];
          }
      }
    }

    /** `weatherflowtempest(params, event)` (lines 167-241). */
    method Run(cfg: Config, shouldRun: bool, diff: int, home: Option<string>, get: string -> Option<Response>,
               parse: string -> Option<real>, convert: (real, TempScale) -> real)
      returns (result: Option<Reply>, events: seq<Event>)
      modifies this
      ensures Trace(result, events, extraData) == Tempest(cfg, shouldRun, diff, home, old(extraData), get, parse, convert)
    {
      if !shouldRun {
        result := Some(LastRun(diff, cfg.period));
        return result, [Log(1, result.value)];
      }
      if cfg.fileName == "" {
        result, events := Some(MissingFilename), [Log(0, MissingFilename)];
      } else if cfg.apikey == "" {
        result, events := Some(MissingApiKey), [Log(0, MissingApiKey)];
      } else if home.None? {
        result, events := Some(MissingHome), [Log(0, MissingHome)];
      } else {
        var url := RequestUrl(cfg.stationid, cfg.apikey);
        var response := get(url);
        var acquired;
        result, acquired := Acquire(cfg, response, parse, convert);
        events := [Print(url)] + acquired;
        if result.None? {
          return;
        }
      }
      events := events + [SetLastRun];
    }
  }

  /** The table read from its first line, and what is left after its last. */
  lemma TableEnds()
    ensures Fields[0..] == Fields && Fields[|Fields|..] == []
  {
  }

  /** One line of `processResult` as a step of `ApplyFields`. */
  lemma Step(i: nat, extra: map<string, Entry>, data: Json, expires: int, units: string,
             parse: string -> Option<real>, convert: (real, TempScale) -> real)
    requires i < |Fields|
    ensures ApplyFields(Fields[i..], extra, data, expires, units, parse, convert)
      == match FieldValue(Fields[i], data, units, parse, convert)
         case Raised => Progress(extra, false)
         case Ok(v) => ApplyFields(Fields[i + 1..], Inserted(extra, v, Fields[i].target, expires), data, expires, units, parse, convert)
  {
    assert Fields[i..][0] == Fields[i];
    assert Fields[i..][1..] == Fields[i + 1..];
  }
}

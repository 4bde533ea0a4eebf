/**
 * The temperature/humidity sensor plug-in (`allsky_tempsensor.py`): it reads
 * a tab-separated data file written by a sensor script, picks out the
 * internal temperature and humidity, and saves them as extra data.
 *
 * The reading loop iterates over what `file.read()` gives, which is the
 * text itself, so it visits single characters rather than lines. The model
 * keeps that: the loop runs over any sequence of items (`ReadItems`), the
 * per-item classifier is stated for whole lines as well, and `Chars` is what
 * the plug-in actually feeds it.
 */
module AllskyTempSensor {
  import opened Wrappers
  import opened Py

  /** The `data` dictionary of line 66: extra-data keys to the text read for them. */
  type Data = map<string, string>

  const TemperatureKey: string := "INTERNALTEMPERATURE"
  const HumidityKey: string := "INTERNALHUMIDITY"

  /** The tab-separated fields of one item, `line.strip().split("\t")` (line 82). */
  function FieldsOf(line: string): (fields: seq<string>)
    ensures |fields| >= 1
  {
    Split(Strip(line), '\t')
  }

  /**
   * Lines 83-88 on the fields of one item: `None` stands for the IndexError
   * a `data` or `progress` item with too few fields raises.
   */
  function Update(fields: seq<string>, data: Data): (r: Option<Data>)
    requires |fields| >= 1
    ensures fields[0] != "data" && fields[0] != "progress" ==> r == Some(data)
  {
    if fields[0] == "data" then
      if |fields| < 3 then None
      else if fields[2] == "Internal Temperature" then
        if |fields| < 4 then None else Some(data[TemperatureKey := fields[3]])
      else Some(data)
    else if fields[0] == "progress" then
      if |fields| < 3 then None
      else if fields[2] == "Internal Humidity" then
        if |fields| < 4 then None else Some(data[HumidityKey := fields[3]])
      else Some(data)
    else Some(data)
  }

  /**
   * A pass that does not raise leaves the data as it was, or stores the
   * fourth field of a `data` item under INTERNALTEMPERATURE or of a
   * `progress` item under INTERNALHUMIDITY.
   */
  lemma UpdateStores(fields: seq<string>, data: Data)
    requires |fields| >= 1
    ensures var r := Update(fields, data);
      r.Some? ==> (r.value == data
        || (|fields| >= 4 && fields[0] == "data" && r.value == data[TemperatureKey := fields[3]])
        || (|fields| >= 4 && fields[0] == "progress" && r.value == data[HumidityKey := fields[3]]))
  {
  }

  /** One pass of the loop body, lines 82-88. */
  function ClassifyLine(line: string, data: Data): Option<Data> {
    Update(FieldsOf(line), data)
  }

  /** The loop of lines 81-88 over `items`, from `data`; the first item that raises ends it. */
  function Scan(items: seq<string>, data: Data): Option<Data>
    decreases |items|
  {
    if |items| == 0 then Some(data)
    else
      match ClassifyLine(items[0], data)
      case None => None
      case Some(d) => Scan(items[1..], d)
  }

  /** What `for line in text` visits: the characters of `text`, each as a one-character string. */
  function Chars(text: string): (items: seq<string>)
    ensures |items| == |text|
    ensures forall i :: 0 <= i < |text| ==> items[i] == [text[i]]
  {
    seq(|text|, i requires 0 <= i < |text| => [text[i]])
  }

  /**
   * A line made of tab-separated fields, with no whitespace at either end,
   * is split back into exactly those fields.
   */
  lemma {:induction false} FieldsOfJoin(fields: seq<string>)
    requires |fields| >= 1 && fields[0] != [] && fields[|fields| - 1] != []
    requires !IsSpace(fields[0][0]) && !IsSpace(fields[|fields| - 1][|fields[|fields| - 1]| - 1])
    requires forall i :: 0 <= i < |fields| ==> '\t' !in fields[i]
    ensures FieldsOf(Join(fields, '\t')) == fields
  {
    var line := Join(fields, '\t');
    JoinStart(fields, '\t');
    JoinLast(fields, '\t');
    var last := fields[|fields| - 1];
    assert line[0] == fields[0][0];
    assert line[|line| - 1] == line[|line| - |last|..][|last| - 1] == last[|last| - 1];
    StripStripped(line);
    SplitJoin(fields, '\t');
  }

  /** A `data` line naming the internal temperature stores its fourth field under INTERNALTEMPERATURE. */
  lemma TemperatureLine(fields: seq<string>, data: Data)
    requires TemperatureFields(fields)
    requires forall i :: 0 <= i < |fields| ==> '\t' !in fields[i]
    requires fields[|fields| - 1] != [] && !IsSpace(fields[|fields| - 1][|fields[|fields| - 1]| - 1])
    ensures ClassifyLine(Join(fields, '\t'), data) == Some(data[TemperatureKey := fields[3]])
  {
    FieldsOfJoin(fields);
  }

  /** A `progress` line naming the internal humidity stores its fourth field under INTERNALHUMIDITY. */
  lemma HumidityLine(fields: seq<string>, data: Data)
    requires |fields| >= 4 && fields[0] == "progress" && fields[2] == "Internal Humidity"
    requires forall i :: 0 <= i < |fields| ==> '\t' !in fields[i]
    requires fields[|fields| - 1] != [] && !IsSpace(fields[|fields| - 1][|fields[|fields| - 1]| - 1])
    ensures ClassifyLine(Join(fields, '\t'), data) == Some(data[HumidityKey := fields[3]])
  {
    FieldsOfJoin(fields);
  }

  /** A `data` or `progress` line with fewer than three fields raises, whatever it holds. */
  lemma ShortLineRaises(fields: seq<string>, data: Data)
    requires 1 <= |fields| < 3 && (fields[0] == "data" || fields[0] == "progress")
    requires forall i :: 0 <= i < |fields| ==> '\t' !in fields[i]
    requires fields[|fields| - 1] != [] && !IsSpace(fields[|fields| - 1][|fields[|fields| - 1]| - 1])
    ensures ClassifyLine(Join(fields, '\t'), data) == None
  {
    FieldsOfJoin(fields);
  }

  /** A line with three fields whose third names the reading raises at the fourth. */
  lemma MissingValueRaises(fields: seq<string>, data: Data)
    requires |fields| == 3
    requires (fields[0] == "data" && fields[2] == "Internal Temperature")
          || (fields[0] == "progress" && fields[2] == "Internal Humidity")
    requires forall i :: 0 <= i < |fields| ==> '\t' !in fields[i]
    ensures ClassifyLine(Join(fields, '\t'), data) == None
  {
    FieldsOfJoin(fields);
  }

  /** A first field of at most one character is neither tag, so nothing changes. */
  lemma ShortTagUnchanged(fields: seq<string>, data: Data)
    requires |fields| >= 1 && |fields[0]| <= 1
    ensures Update(fields, data) == Some(data)
  {
    assert fields[0] != "data" && fields[0] != "progress" by {
      assert |"data"| == 4 && |"progress"| == 8;
    }
  }

  /** A one-character item never has `data` or `progress` as its first field, so it changes nothing. */
  lemma SingleCharUnchanged(c: char, data: Data)
    ensures ClassifyLine([c], data) == Some(data)
  {
    var s := Strip([c]);
    assert |s| <= 1 by {
      if IsSpace(c) {
        assert TrimLeft([c]) == TrimLeft([]);
      }
    }
    SplitFirstShort(s, '\t');
    ShortTagUnchanged(FieldsOf([c]), data);
  }

  /** The loop over `items + [x]` is the loop over `items` followed by one more pass. */
  lemma {:induction false} ScanAppend(items: seq<string>, x: string, data: Data)
    ensures Scan(items + [x], data) == match Scan(items, data) case None => None case Some(d) => ClassifyLine(x, d)
    decreases |items|
  {
    if |items| == 0 {
      assert ([] + [x])[1..] == [];
    } else {
      assert (items + [x])[0] == items[0];
      assert (items + [x])[1..] == items[1..] + [x];
      match ClassifyLine(items[0], data)
      case None =>
      case Some(d) => ScanAppend(items[1..], x, d);
    }
  }

  /** The fields of a line that carries the internal temperature. */
  predicate TemperatureFields(fields: seq<string>) {
    |fields| >= 4 && fields[0] == "data" && fields[2] == "Internal Temperature"
  }

  /** Of two temperature lines the later one wins. */
  lemma {:induction false} LaterLineOverwrites(items: seq<string>, l1: string, l2: string, data: Data)
    requires TemperatureFields(FieldsOf(l1)) && TemperatureFields(FieldsOf(l2))
    requires Scan(items, data).Some?
    ensures Scan(items + [l1] + [l2], data) == Some(Scan(items, data).value[TemperatureKey := FieldsOf(l2)[3]])
  {
    var d := Scan(items, data).value;
    var d1 := d[TemperatureKey := FieldsOf(l1)[3]];
    var d2 := d1[TemperatureKey := FieldsOf(l2)[3]];
    TemperatureItem(l1, d);
    TemperatureItem(l2, d1);
    ScanTwo(items, l1, l2, data, d, d1, d2);
    Overwrite(d, TemperatureKey, FieldsOf(l1)[3], FieldsOf(l2)[3]);
  }

  /** The fields of a line that carries the internal humidity. */
  predicate HumidityFields(fields: seq<string>) {
    |fields| >= 4 && fields[0] == "progress" && fields[2] == "Internal Humidity"
  }

  /** Of two humidity lines the later one wins. */
  lemma {:induction false} LaterHumidityLineOverwrites(items: seq<string>, l1: string, l2: string, data: Data)
    requires HumidityFields(FieldsOf(l1)) && HumidityFields(FieldsOf(l2))
    requires Scan(items, data).Some?
    ensures Scan(items + [l1] + [l2], data) == Some(Scan(items, data).value[HumidityKey := FieldsOf(l2)[3]])
  {
    var d := Scan(items, data).value;
    var d1 := d[HumidityKey := FieldsOf(l1)[3]];
    var d2 := d1[HumidityKey := FieldsOf(l2)[3]];
    HumidityItem(l1, d);
    HumidityItem(l2, d1);
    ScanTwo(items, l1, l2, data, d, d1, d2);
    Overwrite(d, HumidityKey, FieldsOf(l1)[3], FieldsOf(l2)[3]);
  }

  /** One pass over an item whose fields carry the internal humidity. */
  lemma HumidityItem(line: string, data: Data)
    requires HumidityFields(FieldsOf(line))
    ensures ClassifyLine(line, data) == Some(data[HumidityKey := FieldsOf(line)[3]])
  {
  }

  /** Storing twice under one key keeps the second value. */
  lemma Overwrite(d: Data, k: string, a: string, b: string)
    ensures d[k := a][k := b] == d[k := b]
  {
  }

  /** One pass over an item whose fields carry the internal temperature. */
  lemma TemperatureItem(line: string, data: Data)
    requires TemperatureFields(FieldsOf(line))
    ensures ClassifyLine(line, data) == Some(data[TemperatureKey := FieldsOf(line)[3]])
  {
  }

  /** Two more passes after `items`, one after the other. */
  lemma {:induction false} ScanTwo(items: seq<string>, l1: string, l2: string, data: Data, d: Data, d1: Data, d2: Data)
    requires Scan(items, data) == Some(d) && ClassifyLine(l1, d) == Some(d1) && ClassifyLine(l2, d1) == Some(d2)
    ensures Scan(items + [l1] + [l2], data) == Some(d2)
  {
    assert Scan(items + [l1], data) == Some(d1) by {
      ScanAppend(items, l1, data);
    }
    assert Scan(items + [l1] + [l2], data) == Some(d2) by {
      ScanAppend(items + [l1], l2, data);
    }
  }

  /** Items whose first field is neither `data` nor `progress` leave the dictionary as it was. */
  lemma {:induction false} OtherLinesIgnored(items: seq<string>, data: Data)
    requires forall i :: 0 <= i < |items| ==> FieldsOf(items[i])[0] != "data" && FieldsOf(items[i])[0] != "progress"
    ensures Scan(items, data) == Some(data)
    decreases |items|
  {
    if |items| > 0 {
      assert forall i :: 0 <= i < |items| - 1 ==> items[1..][i] == items[i + 1];
      OtherLinesIgnored(items[1..], data);
    }
  }

  /** The loop adds no key but the two readings and drops none. */
  lemma {:induction false} ScanKeys(items: seq<string>, data: Data)
    requires Scan(items, data).Some?
    ensures data.Keys <= Scan(items, data).value.Keys <= data.Keys + {TemperatureKey, HumidityKey}
    decreases |items|
  {
    if |items| > 0 {
      UpdateStores(FieldsOf(items[0]), data);
      var d := ClassifyLine(items[0], data).value;
      ScanKeys(items[1..], d);
    }
  }

  /** As written the loop visits characters, so it never raises and never stores anything. */
  lemma {:induction false} AsWrittenUnchanged(text: string, data: Data)
    ensures Scan(Chars(text), data) == Some(data)
    decreases |text|
  {
    if |text| > 0 {
      SingleCharUnchanged(text[0], data);
      assert Chars(text)[1..] == Chars(text[1..]);
      AsWrittenUnchanged(text[1..], data);
    }
  }

  /** Lines 81-88: the loop over `items`, starting from the empty `data` of line 66. */
  method ReadItems(items: seq<string>) returns (r: Option<Data>)
    ensures r == Scan(items, map[])
  {
    var data: Data := map[];
    for i := 0 to |items|
      invariant Scan(items, map[]) == Scan(items[i..], data)
    {
      assert items[i..][0] == items[i] && items[i..][1..] == items[i + 1..];
      var substr := Split(Strip(items[i]), '\t');
      if substr[0] == "data" {
        if |substr| < 3 {
          return None;
        }
        if substr[2] == "Internal Temperature" {
          if |substr| < 4 {
            return None;
          }
          data := data[TemperatureKey := substr[3]];
        }
      } else if substr[0] == "progress" {
        if |substr| < 3 {
          return None;
        }
        if substr[2] == "Internal Humidity" {
          if |substr| < 4 {
            return None;
          }
          data := data[HumidityKey := substr[3]];
        }
      }
    }
    return Some(data);
  }

  /** What `tempsensor` returns, as text it formats. */
  datatype Message =
    | Written(fileName: string)        // "Data acquired and written to extra data file {fileName}"
    | ReadFailed                       // str(e) of the exception caught at line 93
    | LastRun(diff: int, period: int)  // "Last run {diff} seconds ago. Running every {period} seconds"

  /** What the plug-in hands to the host, in order. */
  datatype Event =
    | Log(level: int, message: Message)                 // s.log(level, ...)
    | SaveExtraData(fileName: string, data: Data)       // s.saveExtraData(fileName, data)
    | SetLastRun                                        // s.setLastRun(module)

  /** The parameters the plug-in reads (lines 69-72). */
  datatype Config = Config(period: int, fileName: string, datafile: string)

  /** The result of one call: the returned text and the events. */
  datatype Outcome = Outcome(result: Message, events: seq<Event>)

  /** Lines 79-95: read, then save and report, or report the exception; `content` is `None` when opening or reading raised. */
  function Attempt(cfg: Config, content: Option<string>): seq<Event> {
    match content
    case None => [Log(0, ReadFailed)]
    case Some(text) =>
      match Scan(Chars(text), map[])
      case None => [Log(0, ReadFailed)]
      case Some(data) => [SaveExtraData(cfg.fileName, data), Log(1, Written(cfg.fileName))]
  }

  /** Whether the guards of lines 75-78 let the read happen. */
  predicate Reads(cfg: Config, shouldRun: bool, home: Option<string>) {
    shouldRun && cfg.fileName != "" && cfg.datafile != "" && home.Some?
  }

  /**
   * `tempsensor(params, event)` (lines 65-102). `shouldRun` and `diff` are
   * what `s.shouldRun` answered, `home` is ALLSKY_HOME, `content` the text
   * of `datafile`.
   */
  function TempSensor(cfg: Config, shouldRun: bool, diff: int, home: Option<string>, content: Option<string>): Outcome {
    var tried := if Reads(cfg, shouldRun, home) then Attempt(cfg, content) else [];
    Outcome(LastRun(diff, cfg.period), tried + [SetLastRun, Log(1, LastRun(diff, cfg.period))])
  }

  /**
   * Whatever happens, the call returns the "Last run" text (line 99
   * overwrites every earlier result), and ends by recording the run once
   * and logging that text.
   */
  lemma AlwaysLastRun(cfg: Config, shouldRun: bool, diff: int, home: Option<string>, content: Option<string>)
    ensures var t := TempSensor(cfg, shouldRun, diff, home, content);
      && t.result == LastRun(diff, cfg.period)
      && |t.events| >= 2
      && t.events[|t.events| - 2..] == [SetLastRun, Log(1, LastRun(diff, cfg.period))]
      && SetLastRun !in t.events[..|t.events| - 2]
  {
    var tried := if Reads(cfg, shouldRun, home) then Attempt(cfg, content) else [];
    var t := TempSensor(cfg, shouldRun, diff, home, content);
    assert t.events[..|t.events| - 2] == tried;
  }

  /** With an empty file name or data file nothing is read or saved, whatever the file holds. */
  lemma NothingReadWithoutNames(cfg: Config, shouldRun: bool, diff: int, home: Option<string>, content: Option<string>)
    requires cfg.fileName == "" || cfg.datafile == ""
    ensures TempSensor(cfg, shouldRun, diff, home, content).events
      == [SetLastRun, Log(1, LastRun(diff, cfg.period))]
  {
  }

  /**
   * The data is saved exactly when the module is due, both names are set,
   * ALLSKY_HOME exists and the file could be read; and, as written, what is
   * saved is always the empty dictionary.
   */
  lemma SavedIffRead(cfg: Config, shouldRun: bool, diff: int, home: Option<string>, content: Option<string>)
    ensures var t := TempSensor(cfg, shouldRun, diff, home, content);
      (exists e :: e in t.events && e.SaveExtraData?) <==> Reads(cfg, shouldRun, home) && content.Some?
    ensures var t := TempSensor(cfg, shouldRun, diff, home, content);
      forall e :: e in t.events && e.SaveExtraData? ==> e == SaveExtraData(cfg.fileName, map[])
  {
    var t := TempSensor(cfg, shouldRun, diff, home, content);
    var tried := if Reads(cfg, shouldRun, home) then Attempt(cfg, content) else [];
    assert forall e :: e in t.events <==> e in tried || e == SetLastRun || e == Log(1, LastRun(diff, cfg.period));
    if Reads(cfg, shouldRun, home) && content.Some? {
      AsWrittenUnchanged(content.value, map[]);
      assert tried[0] == SaveExtraData(cfg.fileName, map[]);
    }
  }

  /** Lines 79-95: the `try` block, on what opening and reading `datafile` gave. */
  method TryRead(cfg: Config, content: Option<string>) returns (result: Message, events: seq<Event>)
    ensures events == Attempt(cfg, content)
    ensures result == if events[0].SaveExtraData? then Written(cfg.fileName) else ReadFailed
  {
    if content.None? {
      result := ReadFailed;
      return result, [Log(0, result)];
    }
    var data := ReadItems(Chars(content.value));
    if data.None? {
      result := ReadFailed;
      return result, [Log(0, result)];
    }
    events := [SaveExtraData(cfg.fileName, data.value)];
    result := Written(cfg.fileName);
    events := events + [Log(1, result)];
  }

  /** `tempsensor(params, event)` (lines 65-102). */
  method Run(cfg: Config, shouldRun: bool, diff: int, home: Option<string>, content: Option<string>)
    returns (result: Message, events: seq<Event>)
    ensures Outcome(result, events) == TempSensor(cfg, shouldRun, diff, home, content)
  {
    events := [];
    if shouldRun {
      if cfg.fileName != "" && cfg.datafile != "" {
        if home.Some? {
          result, events := TryRead(cfg, content);
        }
      }
    }
    events := events + [SetLastRun];
    result := LastRun(diff, cfg.period);
    events := events + [Log(1, result)];
  }
}

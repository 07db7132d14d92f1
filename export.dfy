/**
 * The Power BI export executor (`ExportToPowerBIExecutor`): the input
 * checks, the parsing of the `Data` input (JSON, double-encoded JSON,
 * comma- or tab-separated text, or plain lines), the per-chart reshaping,
 * the metadata stamped on every record, the CSV document and the download
 * link published as outputs.
 *
 * `JSON.parse`, `JSON.stringify`, the clocks, `Math.random()` and the file
 * identifier are parameters. The rendering template, the visualization
 * configuration, the chart image, the HTML report and the closing log lines
 * are not part of this model.
 */
module Export {
  import opened Wrappers
  import opened Text
  import opened Js
  import opened Env
  import opened Chart
  import opened Csv

  /** Everything the executor takes from outside the environment. */
  datatype ExportOracles = ExportOracles(
    /** `JSON.parse`. */
    decode: string -> Result<Value, Thrown>,
    /** `JSON.stringify` on an object or array. */
    stringify: Value -> string,
    chart: ChartOracles,
    /** `new Date().toLocaleTimeString()` at the start. */
    startedAt: string,
    /** The rounded milliseconds the parsing and the CSV conversion took. */
    parseMs: nat,
    csvMs: nat,
    /** `Date.now()` and `new Date().toISOString()` while record `i` is stamped. */
    now: nat -> int,
    isoNow: nat -> string,
    /** The `Math.random()` drawn for record `i`'s quality score. */
    qualityDraw: nat -> real,
    /** `generateFileId()`. */
    fileId: string)

  const CsvOutput := "Power BI CSV"
  const DownloadOutput := "Auto Download"
  const NoData := "input -> Data is not defined"
  const NoChartType := "input -> Chart Type is not defined"
  const DoubleEncoded := "🔁 Parsed double-encoded JSON successfully"
  const JsonString := "ℹ️ Input was JSON string; proceeding as text"
  const ParsedJson := "✅ Successfully parsed input as JSON"
  const SimpleStructure := "📄 Created simple data structure from text lines"

  /** `Math.round(n / 1024)`. */
  function RoundKB(n: nat): nat {
    (n + 512) / 1024
  }

  function StartMessage(at: string): string {
    "📊 Starting Power BI Export at " + at + "..."
  }

  function SizeMessage(n: nat): string {
    "📊 Processing " + NatText(RoundKB(n)) + "KB of data for Power BI export"
  }

  function ChartTypeMessage(chartType: string): string {
    "📋 Chart type: " + chartType
  }

  function LinesMessage(n: nat): string {
    "📄 Processing " + NatText(n) + " lines of text data"
  }

  function FormatMessage(isCsv: bool, headers: seq<string>): string {
    "📊 Detected " + (if isCsv then "CSV" else "TSV") + " format with headers: " + Join(headers, ", ")
  }

  function ParseTimeMessage(ms: nat): string {
    "⏱️ Data parsing completed in " + NatText(ms) + "ms"
  }

  function RecordsMessage(n: nat): string {
    "📊 Processing " + NatText(n) + " data records"
  }

  function OptimizedMessage(chartType: string): string {
    "📈 Optimized data for " + chartType + " chart type"
  }

  function CsvTimeMessage(ms: nat): string {
    "⏱️ CSV conversion completed in " + NatText(ms) + "ms"
  }

  function CsvSizeMessage(n: nat): string {
    "💾 Generated " + NatText(RoundKB(n)) + "KB CSV file"
  }

  function DownloadMessage(url: string): string {
    "🔗 Auto-download URL: " + url
  }

  /** The `catch` at the end: `❌ Power BI export failed: ${error.message || error}`. */
  function FailureMessage(e: Thrown): string {
    "❌ Power BI export failed: " + (if e.message != "" then e.message else "Error")
  }

  /** `/api/download/csv/${fileId}`. */
  function DownloadUrl(fileId: string): string {
    "/api/download/csv/" + fileId
  }

  // ---------------------------------------------------------------------------
  // Delimited and plain text (ExportToPowerBIExecutor.ts:254-285)

  /** `lines.filter(line => line.trim())`. */
  function KeepNonBlank(lines: seq<string>): (r: seq<string>)
    ensures forall x :: x in r <==> x in lines && Trim(x) != ""
    ensures |r| <= |lines|
  {
    if lines == [] then []
    else (if Trim(lines[0]) != "" then [lines[0]] else []) + KeepNonBlank(lines[1..])
  }

  /** `data.split('\n').filter(line => line.trim())`: the lines that are not blank, in order. */
  function NonBlankLines(data: string): (lines: seq<string>)
    ensures forall i :: 0 <= i < |lines| ==> '\n' !in lines[i] && Trim(lines[i]) != ""
  {
    var r := KeepNonBlank(Split(data, '\n'));
    assert forall i :: 0 <= i < |r| ==> r[i] in r;
    r
  }

  /** `v.trim().replace(/"/g, '')`. */
  function CleanCell(v: string): (r: string)
    ensures '"' !in r
  {
    Remove(Trim(v), '"')
  }

  /** `line.split(delimiter).map(v => v.trim().replace(/"/g, ''))`. */
  function Cells(line: string, delimiter: char): (cs: seq<string>)
    ensures |cs| == |Split(line, delimiter)|
    ensures forall j :: 0 <= j < |cs| ==> cs[j] == CleanCell(Split(line, delimiter)[j])
  {
    var parts := Split(line, delimiter);
    seq(|parts|, j requires 0 <= j < |parts| => CleanCell(parts[j]))
  }

  /** `values[index] || ''`. */
  function ValueAt(values: seq<string>, j: nat): string {
    if j < |values| then values[j] else ""
  }

  /** `headers.forEach((header, index) => { obj[header] = values[index] || '' })`, from `{}`. */
  function RecordOf(headers: seq<string>, values: seq<string>): seq<Field>
    decreases |headers|
  {
    if headers == [] then []
    else
      var n := |headers| - 1;
      Assign(RecordOf(headers[..n], values), headers[n], Str(ValueAt(values, n)))
  }

  /** With distinct headers a record has exactly the headers as keys, in order. */
  lemma {:induction false} RecordOfKeys(headers: seq<string>, values: seq<string>)
    requires Distinct(headers)
    ensures Keys(RecordOf(headers, values)) == headers
    decreases |headers|
  {
    if headers != [] {
      var n := |headers| - 1;
      var prefix := RecordOf(headers[..n], values);
      DistinctInit(headers);
      RecordOfKeys(headers[..n], values);
      calc {
        Keys(RecordOf(headers, values));
        Keys(Assign(prefix, headers[n], Str(ValueAt(values, n))));
        { AssignKeys(prefix, headers[n], Str(ValueAt(values, n))); }
        headers[..n] + [headers[n]];
        { LastSplit(headers); }
        headers;
      }
    }
  }

  lemma LastSplit<T>(xs: seq<T>)
    requires xs != []
    ensures xs[..|xs| - 1] + [xs[|xs| - 1]] == xs
  {
  }

  lemma DistinctInit(headers: seq<string>)
    requires headers != [] && Distinct(headers)
    ensures Distinct(headers[..|headers| - 1])
    ensures headers[|headers| - 1] !in headers[..|headers| - 1]
  {
    var n := |headers| - 1;
    forall j | 0 <= j < n ensures headers[..n][j] != headers[n] {
      assert headers[..n][j] == headers[j];
    }
  }

  /** Each header reads the value in its column, or '' where the line has fewer values; a later equal header wins. */
  lemma {:induction false} RecordOfLookup(headers: seq<string>, values: seq<string>, j: nat)
    requires j < |headers|
    requires forall l :: j < l < |headers| ==> headers[l] != headers[j]
    ensures Lookup(RecordOf(headers, values), headers[j]) == Str(ValueAt(values, j))
    decreases |headers|
  {
    var n := |headers| - 1;
    AssignLookup(RecordOf(headers[..n], values), headers[n], Str(ValueAt(values, n)), headers[j]);
    if j < n {
      RecordOfLookup(headers[..n], values, j);
    }
  }

  /** The records of the lines after the header line of delimited text. */
  function DelimitedRows(headers: seq<string>, lines: seq<string>, delimiter: char): (rows: seq<Value>)
    ensures |rows| == |lines|
  {
    seq(|lines|, i requires 0 <= i < |lines| => Obj(RecordOf(headers, Cells(lines[i], delimiter))))
  }

  /** `lines.map((line, index) => ({id: index + 1, text: line.trim(), value: index + 1}))`. */
  function SimpleRows(lines: seq<string>): (rows: seq<Value>)
    ensures |rows| == |lines|
  {
    seq(|lines|, i requires 0 <= i < |lines| =>
      Obj([Field("id", Num(i + 1)), Field("text", Str(Trim(lines[i]))), Field("value", Num(i + 1))]))
  }

  /** What a parsing step leaves in `parsedData`, and the info lines it writes. */
  datatype Parse = Parse(parsed: Value, notes: seq<LogLine>)

  /** The text branch: `parsedData` stays `undefined` when there is no line. */
  function ParseText(data: string): Parse {
    TextParse(NonBlankLines(data))
  }

  /** The text branch on the non-blank lines. */
  function TextParse(lines: seq<string>): (p: Parse)
    ensures p.notes != [] && p.notes[0] == LogLine(Info, LinesMessage(|lines|))
    ensures p.parsed == Undefined <==> lines == []
    ensures lines != [] ==> (p.parsed.Arr?
      && |p.parsed.items| == if ',' in lines[0] || '\t' in lines[0] then |lines| - 1 else |lines|)
  {
    var counted := [LogLine(Info, LinesMessage(|lines|))];
    if lines == [] then Parse(Undefined, counted)
    else
      var isCsv := ',' in lines[0];
      var isTsv := '\t' in lines[0];
      if isCsv || isTsv then
        var delimiter := if isCsv then ',' else '\t';
        var headers := Cells(lines[0], delimiter);
        Parse(Arr(DelimitedRows(headers, lines[1..], delimiter)), counted + [LogLine(Info, FormatMessage(isCsv, headers))])
      else Parse(Arr(SimpleRows(lines)), counted + [LogLine(Info, SimpleStructure)])
  }

  /** The JSON branch: a decoded string is decoded once more when it can be. */
  function ParseJson(v: Value, decode: string -> Result<Value, Thrown>): (p: Parse)
    ensures p.notes != [] && p.notes[|p.notes| - 1] == LogLine(Info, ParsedJson)
    ensures !v.Str? ==> p.parsed == v
    ensures v.Str? ==> (decode(v.s).Ok? ==> p.parsed == decode(v.s).value) && (decode(v.s).Err? ==> p.parsed == v)
  {
    if v.Str? then
      match decode(v.s)
      case Ok(w) => Parse(w, [LogLine(Info, DoubleEncoded), LogLine(Info, ParsedJson)])
      case Err(_) => Parse(v, [LogLine(Info, JsonString), LogLine(Info, ParsedJson)])
    else Parse(v, [LogLine(Info, ParsedJson)])
  }

  /** Lines 239-286: JSON first, text when it does not decode. */
  function Parsed(data: string, decode: string -> Result<Value, Thrown>): (p: Parse)
    ensures decode(data).Ok? ==> var v := decode(data).value;
      p.parsed == v || (v.Str? && decode(v.s) == Ok(p.parsed))
    ensures decode(data).Err? ==>
      p.notes != [] && p.notes[0] == LogLine(Info, LinesMessage(|NonBlankLines(data)|))
      && (p.parsed == Undefined <==> NonBlankLines(data) == [])
  {
    match decode(data)
    case Ok(v) => ParseJson(v, decode)
    case Err(_) => ParseText(data)
  }

  /** Lines 290-299: a string item is decoded, or becomes `{text}` when it is not JSON. */
  function DecodeItem(item: Value, decode: string -> Result<Value, Thrown>): (r: Value)
    ensures !item.Str? ==> r == item
    ensures item.Str? && decode(item.s).Ok? ==> r == decode(item.s).value
    ensures item.Str? && decode(item.s).Err? ==> r == Obj([Field("text", item)])
  {
    if item.Str? then
      match decode(item.s)
      case Ok(w) => w
      case Err(_) => Obj([Field("text", item)])
    else item
  }

  /** Lines 289-307: the items decoded when `parsedData` is an array, and a lone value wrapped as one record. */
  function Records(parsed: Value, decode: string -> Result<Value, Thrown>): (records: seq<Value>)
    ensures parsed.Arr? ==> |records| == |parsed.items|
    ensures !parsed.Arr? ==> records == [parsed]
  {
    if parsed.Arr? then seq(|parsed.items|, i requires 0 <= i < |parsed.items| => DecodeItem(parsed.items[i], decode))
    else [parsed]
  }

  /**
   * Delimited text: a comma anywhere in the first non-blank line makes it
   * CSV, whatever tabs it holds; a tab without a comma makes it TSV. The
   * header names are trimmed and unquoted, and each later line becomes one
   * record that maps each header to the cleaned value in its column, or to
   * '' where the line is short.
   */
  lemma DelimitedText(data: string, i: nat, j: nat)
    requires var lines := NonBlankLines(data); lines != [] && (',' in lines[0] || '\t' in lines[0])
    requires i < |NonBlankLines(data)| - 1
    requires var ls := NonBlankLines(data); var d := if ',' in ls[0] then ',' else '\t';
      j < |Cells(ls[0], d)| && forall l :: j < l < |Cells(ls[0], d)| ==> Cells(ls[0], d)[l] != Cells(ls[0], d)[j]
    ensures var lines := NonBlankLines(data);
      var delimiter := if ',' in lines[0] then ',' else '\t';
      var headers := Cells(lines[0], delimiter);
      var p := ParseText(data);
      && p.parsed.Arr? && |p.parsed.items| == |lines| - 1
      && p.parsed.items[i].Obj?
      && Lookup(p.parsed.items[i].fields, headers[j]) == Str(ValueAt(Cells(lines[i + 1], delimiter), j))
  {
    var lines := NonBlankLines(data);
    var delimiter := if ',' in lines[0] then ',' else '\t';
    var headers := Cells(lines[0], delimiter);
    assert lines[1..][i] == lines[i + 1];
    RecordOfLookup(headers, Cells(lines[i + 1], delimiter), j);
  }

  /** Text whose first non-blank line has neither a comma nor a tab: one `{id, text, value}` record per non-blank line. */
  lemma PlainText(data: string)
    requires var lines := NonBlankLines(data); lines != [] && ',' !in lines[0] && '\t' !in lines[0]
    ensures var lines := NonBlankLines(data);
      var p := ParseText(data);
      && p.parsed.Arr? && |p.parsed.items| == |lines|
      && forall i :: 0 <= i < |lines| ==>
           p.parsed.items[i] == Obj([Field("id", Num(i + 1)), Field("text", Str(Trim(lines[i]))), Field("value", Num(i + 1))])
  {
    PlainLines(NonBlankLines(data));
  }

  lemma PlainLines(lines: seq<string>)
    requires lines != [] && ',' !in lines[0] && '\t' !in lines[0]
    ensures var p := TextParse(lines);
      && p.parsed.Arr? && |p.parsed.items| == |lines|
      && forall i :: 0 <= i < |lines| ==>
           p.parsed.items[i] == Obj([Field("id", Num(i + 1)), Field("text", Str(Trim(lines[i]))), Field("value", Num(i + 1))])
  {
    var rows := SimpleRows(lines);
    assert TextParse(lines).parsed == Arr(rows);
    forall i | 0 <= i < |lines|
      ensures rows[i] == Obj([Field("id", Num(i + 1)), Field("text", Str(Trim(lines[i]))), Field("value", Num(i + 1))])
    {
    }
  }

  /** Text without a non-blank line leaves nothing parsed: the run goes on with the single record `undefined`. */
  lemma BlankText(data: string, decode: string -> Result<Value, Thrown>)
    requires decode(data).Err? && NonBlankLines(data) == []
    ensures Records(Parsed(data, decode).parsed, decode) == [Undefined]
  {
  }

  /**
   * The records handed to the reshaping: an array's items in order, each
   * string decoded or wrapped as `{text}`, and anything else as the only record.
   */
  lemma RecordsShape(parsed: Value, decode: string -> Result<Value, Thrown>, i: nat)
    requires parsed.Arr? && i < |parsed.items|
    ensures var item := parsed.items[i];
      var r := Records(parsed, decode)[i];
      && (item.Str? && decode(item.s).Ok? ==> r == decode(item.s).value)
      && (item.Str? && decode(item.s).Err? ==> r == Obj([Field("text", item)]))
      && (!item.Str? ==> r == item)
  {
  }

  // ---------------------------------------------------------------------------
  // Metadata (ExportToPowerBIExecutor.ts:318-327)

  /** `Math.round((Math.random() * 0.3 + 0.7) * 100)`: the quality score in hundredths. */
  function QualityHundredths(r: real): int {
    (r * 30.0 + 70.0 + 0.5).Floor
  }

  /** `String(h / 100)` for a whole number of hundredths: no trailing zero, no fraction when there is none. */
  function HundredthsText(h: nat): string {
    var whole := NatText(h / 100);
    var f := h % 100;
    if f == 0 then whole
    else if f % 10 == 0 then whole + "." + [DigitChar(f / 10)]
    else whole + "." + [DigitChar(f / 10), DigitChar(f % 10)]
  }

  /** The quality score as the CSV renders it (numbers are integers in this model, so the score is kept as its text). */
  function QualityText(r: real): string {
    var h := QualityHundredths(r);
    if h < 0 then "-" + HundredthsText(-h) else HundredthsText(h)
  }

  /** The quality score lies between 0.70 and 1.00. */
  lemma QualityInRange(r: real)
    requires 0.0 <= r < 1.0
    ensures 70 <= QualityHundredths(r) <= 100
  {
  }

  /** The fields stamped on record `i`. */
  function Metadata(i: nat, chartType: string, o: ExportOracles): (m: seq<Field>)
    ensures |m| == |MetadataKeyNames| && forall k :: 0 <= k < |m| ==> m[k].key == MetadataKeyNames[k]
    ensures m[6].val == Num(i + 1) && m[3].val == Str(chartType)
  {
    [ Field("powerbi_id", Str("PBI_" + IntText(o.now(i)) + "_" + NatText(i))),
      Field("data_source", Str("WebExtract")),
      Field("extraction_date", Str(o.isoNow(i))),
      Field("chart_type", Str(chartType)),
      Field("quality_score", Str(QualityText(o.qualityDraw(i)))),
      Field("processing_method", Str("AI_Workflow")),
      Field("record_index", Num(i + 1)) ]
  }

  /** `optimizedData.map((item, index) => ({...item, <metadata>}))`. */
  function Stamped(rows: seq<Value>, chartType: string, o: ExportOracles): (stamped: seq<Value>)
    ensures |stamped| == |rows|
    ensures forall i :: 0 <= i < |rows| ==> stamped[i].Obj?
  {
    seq(|rows|, i requires 0 <= i < |rows| => Obj(Spread(OwnFields(rows[i]), Metadata(i, chartType, o))))
  }

  const MetadataKeyNames: seq<string> :=
    ["powerbi_id", "data_source", "extraction_date", "chart_type", "quality_score", "processing_method", "record_index"]

  lemma MetadataKeys(i: nat, chartType: string, o: ExportOracles)
    ensures UniqueKeys(Metadata(i, chartType, o))
    ensures Keys(Metadata(i, chartType, o)) == MetadataKeyNames
  {
    var m := Metadata(i, chartType, o);
    StampKeys(m[0].val, m[1].val, m[2].val, m[3].val, m[4].val, m[5].val, m[6].val);
  }

  /** The seven stamp keys, whatever their values, are distinct and in this order. */
  lemma StampKeys(a: Value, b: Value, c: Value, d: Value, e: Value, f: Value, g: Value)
    ensures var m := [Field(MetadataKeyNames[0], a), Field(MetadataKeyNames[1], b), Field(MetadataKeyNames[2], c),
                      Field(MetadataKeyNames[3], d), Field(MetadataKeyNames[4], e), Field(MetadataKeyNames[5], f),
                      Field(MetadataKeyNames[6], g)];
      UniqueKeys(m) && Keys(m) == MetadataKeyNames
  {
    var m := [Field(MetadataKeyNames[0], a), Field(MetadataKeyNames[1], b), Field(MetadataKeyNames[2], c),
              Field(MetadataKeyNames[3], d), Field(MetadataKeyNames[4], e), Field(MetadataKeyNames[5], f),
              Field(MetadataKeyNames[6], g)];
    forall x, y | 0 <= x < y < 7 ensures m[x].key != m[y].key {
      assert |m[x].key| != |m[y].key| || m[x].key[0] != m[y].key[0];
    }
  }

  /**
   * A stamped record keeps the row's own fields except the seven metadata
   * keys, which the stamp overrides: the source is `WebExtract`, the chart
   * type is the requested one, and the records are numbered from 1.
   */
  lemma StampedFields(rows: seq<Value>, chartType: string, o: ExportOracles, i: nat, k: string)
    requires i < |rows|
    ensures var fs := Stamped(rows, chartType, o)[i].fields;
      && Lookup(fs, "data_source") == Str("WebExtract")
      && Lookup(fs, "chart_type") == Str(chartType)
      && Lookup(fs, "record_index") == Num(i + 1)
      && (!HasKey(Metadata(i, chartType, o), k) ==> Lookup(fs, k) == Lookup(OwnFields(rows[i]), k))
  {
    var m := Metadata(i, chartType, o);
    MetadataKeys(i, chartType, o);
    SpreadLookup(OwnFields(rows[i]), m, "data_source");
    SpreadLookup(OwnFields(rows[i]), m, "chart_type");
    SpreadLookup(OwnFields(rows[i]), m, "record_index");
    SpreadLookup(OwnFields(rows[i]), m, k);
    LookupAt(m, 1);
    LookupAt(m, 3);
    LookupAt(m, 6);
  }

  /** Every stamped record is an object, so writing the CSV cannot fail. */
  lemma StampedCsv(rows: seq<Value>, chartType: string, o: ExportOracles)
    ensures Csv.Csv(Stamped(rows, chartType, o), o.stringify).Ok?
  {
  }

  // ---------------------------------------------------------------------------
  // The executor

  /** Lines 336-350 and 403-405: the CSV's log lines, its download link and the two outputs. */
  function Published(csvData: Result<string, Thrown>, o: ExportOracles): Outcome {
    match csvData
    case Err(e) => Failed([], FailureMessage(e))
    case Ok(csv) =>
      var url := DownloadUrl(o.fileId);
      Outcome(true,
              [LogLine(Info, CsvTimeMessage(o.csvMs)), LogLine(Info, CsvSizeMessage(|csv|)), LogLine(Info, DownloadMessage(url))],
              map[CsvOutput := csv, DownloadOutput := url])
  }

  /** The lines written from the size report up to the record count. */
  function Preamble(data: string, chartType: string, o: ExportOracles): seq<LogLine> {
    var p := Parsed(data, o.decode);
    [LogLine(Info, SizeMessage(|data|)), LogLine(Info, ChartTypeMessage(chartType))]
    + p.notes
    + [LogLine(Info, ParseTimeMessage(o.parseMs)), LogLine(Info, RecordsMessage(|Records(p.parsed, o.decode)|))]
  }

  /** Lines 312-405: the reshaping's exception becomes the failure line; otherwise the stamped records are published. */
  function Optimized(optimizedData: Result<seq<Value>, Thrown>, chartType: string, o: ExportOracles): Outcome {
    match optimizedData
    case Err(e) => Failed([], FailureMessage(e))
    case Ok(rows) =>
      Following([LogLine(Info, OptimizedMessage(chartType))], Published(Csv.Csv(Stamped(rows, chartType, o), o.stringify), o))
  }

  /** Lines 231-405, once both inputs are present. */
  function Shaped(data: string, chartType: string, o: ExportOracles): Outcome {
    var records := Records(Parsed(data, o.decode).parsed, o.decode);
    Following(Preamble(data, chartType, o), Optimized(OptimizeDataForChart(Arr(records), chartType, o.chart), chartType, o))
  }

  /** The whole run on the given inputs. */
  function Exported(inputs: map<string, string>, o: ExportOracles): Outcome {
    var start := [LogLine(Info, StartMessage(o.startedAt))];
    var data := InputOf(inputs, "Data");
    var chartType := InputOf(inputs, "Chart Type");
    if data == "" then Failed(start, NoData)
    else if chartType == "" then Failed(start, NoChartType)
    else Following(start, Shaped(data, chartType, o))
  }

  /** A missing `Data` or `Chart Type` logs its error after the start line and returns `false` before any output. */
  lemma ExportInputsChecked(inputs: map<string, string>, o: ExportOracles)
    ensures var start := LogLine(Info, StartMessage(o.startedAt));
      && (InputOf(inputs, "Data") == "" ==> Exported(inputs, o) == Outcome(false, [start, LogLine(Error, NoData)], map[]))
      && (InputOf(inputs, "Data") != "" && InputOf(inputs, "Chart Type") == "" ==>
            Exported(inputs, o) == Outcome(false, [start, LogLine(Error, NoChartType)], map[]))
  {
  }

  /**
   * With both inputs present the export fails only when the chart type reads
   * the keys of its rows and a record is `null` or `undefined`; otherwise it
   * publishes exactly the CSV of the stamped, reshaped records and the
   * download link of the stored file.
   */
  lemma ExportResult(inputs: map<string, string>, o: ExportOracles)
    requires InputOf(inputs, "Data") != "" && InputOf(inputs, "Chart Type") != ""
    ensures var chartType := InputOf(inputs, "Chart Type");
      var records := Records(Parsed(InputOf(inputs, "Data"), o.decode).parsed, o.decode);
      var r := Exported(inputs, o);
      && (r.ok <==> !(ReadsKeys(KindOf(chartType)) && exists j :: 0 <= j < |records| && Nullish(records[j])))
      && (r.ok ==> r.outputs == map[CsvOutput := Csv.Csv(Stamped(OptimizeDataForChart(Arr(records), chartType, o.chart).value,
                                                            chartType, o), o.stringify).value,
                                    DownloadOutput := DownloadUrl(o.fileId)])
      && (!r.ok ==> r.outputs == map[] && r.logs[|r.logs| - 1].level == Error)
  {
    var data := InputOf(inputs, "Data");
    var chartType := InputOf(inputs, "Chart Type");
    var records := Records(Parsed(data, o.decode).parsed, o.decode);
    OptimizeKeepsRows(Arr(records), chartType, o.chart);
    var opt := OptimizeDataForChart(Arr(records), chartType, o.chart);
    var tail := Optimized(opt, chartType, o);
    OptimizedResult(opt, chartType, o);
    var r := Exported(inputs, o);
    assert r == Following([LogLine(Info, StartMessage(o.startedAt))], Following(Preamble(data, chartType, o), tail));
    assert r.ok == tail.ok && r.outputs == tail.outputs;
    assert tail.logs != [] ==> r.logs[|r.logs| - 1] == tail.logs[|tail.logs| - 1];
  }

  /** After the reshaping: a failure publishes nothing and ends on an error line; a success publishes the CSV and the link. */
  lemma OptimizedResult(opt: Result<seq<Value>, Thrown>, chartType: string, o: ExportOracles)
    ensures var r := Optimized(opt, chartType, o);
      && (r.ok <==> opt.Ok?)
      && (r.ok ==> r.outputs == map[CsvOutput := Csv.Csv(Stamped(opt.value, chartType, o), o.stringify).value,
                                    DownloadOutput := DownloadUrl(o.fileId)])
      && (!r.ok ==> r.outputs == map[] && r.logs != [] && r.logs[|r.logs| - 1].level == Error)
  {
    if opt.Ok? {
      StampedCsv(opt.value, chartType, o);
    }
  }

  /** Lines 239-286: `parsedData` is assigned by the JSON attempt or, when it throws, by the text parsing. */
  method ParseInput(env: Environment, data: string, o: ExportOracles) returns (parsedData: Value)
    modifies env`logs
    ensures parsedData == Parsed(data, o.decode).parsed
    ensures env.logs == old(env.logs) + Parsed(data, o.decode).notes
  {
    var decoded := o.decode(data);
    if decoded.Err? {
      parsedData := ParseLines(env, data);
      return;
    }
    parsedData := decoded.value;
    if parsedData.Str? {
      var again := o.decode(parsedData.s);
      if again.Ok? {
        parsedData := again.value;
        env.LogInfo(DoubleEncoded);
      } else {
        env.LogInfo(JsonString);
      }
    }
    env.LogInfo(ParsedJson);
  }

  /** Lines 254-285: the `catch` branch. */
  method ParseLines(env: Environment, data: string) returns (parsedData: Value)
    modifies env`logs
    ensures parsedData == ParseText(data).parsed
    ensures env.logs == old(env.logs) + ParseText(data).notes
  {
    ghost var before := env.logs;
    parsedData := Undefined;
    var lines := NonBlankLines(data);
    ghost var counted := [LogLine(Info, LinesMessage(|lines|))];
    env.LogInfo(LinesMessage(|lines|));
    if |lines| > 0 {
      var firstLine := lines[0];
      var isCsv := ',' in firstLine;
      var isTsv := '\t' in firstLine;
      if isCsv || isTsv {
        var delimiter := if isCsv then ',' else '\t';
        var headers := Cells(firstLine, delimiter);
        env.LogInfo(FormatMessage(isCsv, headers));
        Appended(before, counted, [LogLine(Info, FormatMessage(isCsv, headers))]);
        parsedData := Arr(DelimitedRows(headers, lines[1..], delimiter));
      } else {
        parsedData := Arr(SimpleRows(lines));
        env.LogInfo(SimpleStructure);
        Appended(before, counted, [LogLine(Info, SimpleStructure)]);
      }
    }
  }

  /** Lines 231-309: the size report, the parsing, the item decoding, the wrapping and the record count. */
  method ReadRecords(env: Environment, data: string, chartType: string, o: ExportOracles) returns (records: seq<Value>)
    modifies env`logs
    ensures records == Records(Parsed(data, o.decode).parsed, o.decode)
    ensures env.logs == old(env.logs) + Preamble(data, chartType, o)
  {
    ghost var before := env.logs;
    env.LogInfo(SizeMessage(|data|));
    env.LogInfo(ChartTypeMessage(chartType));
    var parsedData := ParseInput(env, data, o);
    ghost var parsed := parsedData;
    if parsedData.Arr? {
      parsedData := Arr(Records(parsedData, o.decode));
    }
    env.LogInfo(ParseTimeMessage(o.parseMs));
    if !parsedData.Arr? {
      parsedData := Arr([parsedData]);
    }
    records := parsedData.items;
    assert records == Records(parsed, o.decode);
    env.LogInfo(RecordsMessage(|records|));
    FourAround(before, LogLine(Info, SizeMessage(|data|)), LogLine(Info, ChartTypeMessage(chartType)), Parsed(data, o.decode).notes,
               LogLine(Info, ParseTimeMessage(o.parseMs)), LogLine(Info, RecordsMessage(|records|)));
  }

  /** Lines 336-350 and 403-405: the CSV's log lines, the download link and the two outputs. */
  method Publish(env: Environment, csvData: Result<string, Thrown>, o: ExportOracles) returns (ok: bool)
    modifies env`logs, env`outputs
    ensures var r := Published(csvData, o);
      && ok == r.ok
      && env.logs == old(env.logs) + r.logs
      && env.outputs == old(env.outputs) + r.outputs
  {
    if csvData.Err? {
      env.LogError(FailureMessage(csvData.error));
      return false;
    }
    env.LogInfo(CsvTimeMessage(o.csvMs));
    env.LogInfo(CsvSizeMessage(|csvData.value|));
    var autoDownloadUrl := DownloadUrl(o.fileId);
    env.LogInfo(DownloadMessage(autoDownloadUrl));
    env.SetOutput(CsvOutput, csvData.value);
    env.SetOutput(DownloadOutput, autoDownloadUrl);
    return true;
  }

  /** Lines 231-405, once both inputs are present. */
  method ExportChecked(env: Environment, data: string, chartType: string, o: ExportOracles) returns (ok: bool)
    modifies env`logs, env`outputs
    ensures var r := Shaped(data, chartType, o);
      && ok == r.ok
      && env.logs == old(env.logs) + r.logs
      && env.outputs == old(env.outputs) + r.outputs
  {
    ghost var before := env.logs;
    var records := ReadRecords(env, data, chartType, o);
    var optimizedData := OptimizeDataForChart(Arr(records), chartType, o.chart);
    ok := Finish(env, optimizedData, chartType, o);
    Appended(before, Preamble(data, chartType, o), Optimized(optimizedData, chartType, o).logs);
  }

  /** Lines 312-405: the reshaping's exception becomes the failure line; otherwise the publication. */
  method Finish(env: Environment, optimizedData: Result<seq<Value>, Thrown>, chartType: string, o: ExportOracles)
    returns (ok: bool)
    modifies env`logs, env`outputs
    ensures var r := Optimized(optimizedData, chartType, o);
      && ok == r.ok
      && env.logs == old(env.logs) + r.logs
      && env.outputs == old(env.outputs) + r.outputs
  {
    if optimizedData.Err? {
      env.LogError(FailureMessage(optimizedData.error));
      return false;
    }
    env.LogInfo(OptimizedMessage(chartType));
    var powerBIData := Stamped(optimizedData.value, chartType, o);
    var csvData := ConvertToCsv(powerBIData, o.stringify);
    ok := Publish(env, csvData, o);
  }

  /** `ExportToPowerBIExecutor(environment)`, up to the outputs this model covers. */
  method ExportToPowerBIExecutor(env: Environment, o: ExportOracles) returns (ok: bool)
    modifies env
    ensures var r := Exported(env.inputs, o);
      && ok == r.ok
      && env.logs == old(env.logs) + r.logs
      && env.outputs == old(env.outputs) + r.outputs
  {
    env.LogInfo(StartMessage(o.startedAt));
    var data := env.GetInput("Data");
    if data == "" {
      env.LogError(NoData);
      return false;
    }
    var chartType := env.GetInput("Chart Type");
    if chartType == "" {
      env.LogError(NoChartType);
      return false;
    }
    ok := ExportChecked(env, data, chartType, o);
    Appended(old(env.logs), [LogLine(Info, StartMessage(o.startedAt))], Shaped(data, chartType, o).logs);
  }
}

/**
 * The CSV writer of the Power BI export (`convertToCSV`). The header row is
 * the union of the rows' keys in first-seen order, every record is one line
 * of cells joined by ',', and the lines are joined by '\n'. A cell whose text
 * holds a comma, a line feed or a double quote is enclosed in double quotes
 * with its quotes doubled, as section 2 (rules 6 and 7) of RFC 4180 asks.
 *
 * A reader for one record of that format is defined here as well, so that the
 * writer is proved against it: reading a written record gives back the texts
 * of its cells.
 */
module Csv {
  import opened Wrappers
  import opened Text
  import opened Js

  // ---------------------------------------------------------------------------
  // The header row (ExportToPowerBIExecutor.ts:99-107)

  /** The keys a row contributes: those of an object or an array (`typeof row === 'object' && row !== null`). */
  function RowKeys(row: Value): seq<string> {
    if row.Obj? || row.Arr? then Keys(OwnFields(row)) else []
  }

  /** `headers.add(k)` on an insertion-ordered set. */
  function Add(hs: seq<string>, k: string): seq<string> {
    if k in hs then hs else hs + [k]
  }

  /** The keys `ks` added to the set `hs` one after the other. */
  function AddAll(hs: seq<string>, ks: seq<string>): seq<string>
    decreases |ks|
  {
    if ks == [] then hs else Add(AddAll(hs, ks[..|ks| - 1]), ks[|ks| - 1])
  }

  /** The header set once the keys of every row have been added, row after row. */
  function HeaderUnion(rows: seq<Value>): seq<string>
    decreases |rows|
  {
    if rows == [] then [] else AddAll(HeaderUnion(rows[..|rows| - 1]), RowKeys(rows[|rows| - 1]))
  }

  predicate Distinct(hs: seq<string>) {
    forall i, j :: 0 <= i < j < |hs| ==> hs[i] != hs[j]
  }

  /** Adding keys keeps what was there first and in order, adds exactly the new keys, and never repeats one. */
  lemma {:induction false} AddAllFacts(hs: seq<string>, ks: seq<string>)
    ensures |hs| <= |AddAll(hs, ks)| && AddAll(hs, ks)[..|hs|] == hs
    ensures forall k :: k in AddAll(hs, ks) <==> k in hs || k in ks
    ensures Distinct(hs) ==> Distinct(AddAll(hs, ks))
    decreases |ks|
  {
    if ks != [] {
      var front := ks[..|ks| - 1];
      AddAllFacts(hs, front);
      assert ks == front + [ks[|ks| - 1]];
      var a := AddAll(hs, front);
      assert a[..|hs|] == hs;
      if ks[|ks| - 1] !in a {
        assert (a + [ks[|ks| - 1]])[..|hs|] == a[..|hs|];
      }
    }
  }

  /** Some object or array row has the key `k`. */
  ghost predicate InSomeRow(rows: seq<Value>, k: string) {
    exists i :: 0 <= i < |rows| && k in RowKeys(rows[i])
  }

  lemma InSomeRowSnoc(rows: seq<Value>, k: string)
    requires rows != []
    ensures InSomeRow(rows, k) <==> InSomeRow(rows[..|rows| - 1], k) || k in RowKeys(rows[|rows| - 1])
  {
    var front := rows[..|rows| - 1];
    if InSomeRow(rows, k) && k !in RowKeys(rows[|rows| - 1]) {
      var i :| 0 <= i < |rows| && k in RowKeys(rows[i]);
      assert i != |rows| - 1;
      assert front[i] == rows[i];
    }
    if InSomeRow(front, k) {
      var i :| 0 <= i < |front| && k in RowKeys(front[i]);
      assert front[i] == rows[i];
    }
  }

  /** The header row holds exactly the keys of the object and array rows. */
  lemma {:induction false} HeaderUnionKeys(rows: seq<Value>)
    ensures forall k :: k in HeaderUnion(rows) <==> InSomeRow(rows, k)
    decreases |rows|
  {
    if rows != [] {
      var front := rows[..|rows| - 1];
      HeaderUnionKeys(front);
      AddAllFacts(HeaderUnion(front), RowKeys(rows[|rows| - 1]));
      forall k ensures k in HeaderUnion(rows) <==> InSomeRow(rows, k) {
        InSomeRowSnoc(rows, k);
      }
    }
  }

  /** The header row never repeats a key. */
  lemma {:induction false} HeaderUnionDistinct(rows: seq<Value>)
    ensures Distinct(HeaderUnion(rows))
    decreases |rows|
  {
    if rows != [] {
      var front := rows[..|rows| - 1];
      HeaderUnionDistinct(front);
      AddAllFacts(HeaderUnion(front), RowKeys(rows[|rows| - 1]));
    }
  }

  /**
   * First-seen order: the headers gathered from the first `j` rows come
   * first, in the same order, in the headers gathered from all of them.
   */
  lemma {:induction false} HeaderUnionGrows(rows: seq<Value>, j: nat)
    requires j <= |rows|
    ensures |HeaderUnion(rows[..j])| <= |HeaderUnion(rows)|
    ensures HeaderUnion(rows)[..|HeaderUnion(rows[..j])|] == HeaderUnion(rows[..j])
    decreases |rows|
  {
    if j < |rows| {
      var front := rows[..|rows| - 1];
      assert front[..j] == rows[..j];
      HeaderUnionGrows(front, j);
      AddAllFacts(HeaderUnion(front), RowKeys(rows[|rows| - 1]));
    } else {
      assert rows[..j] == rows;
    }
  }

  /** `data.forEach(row => Object.keys(row).forEach(key => headers.add(key)))`. */
  method CollectHeaders(data: seq<Value>) returns (headers: seq<string>)
    ensures headers == HeaderUnion(data)
  {
    headers := [];
    var i := 0;
    while i < |data|
      invariant 0 <= i <= |data|
      invariant headers == HeaderUnion(data[..i])
    {
      headers := AddKeys(headers, RowKeys(data[i]));
      assert data[..i + 1][..i] == data[..i];
      i := i + 1;
    }
    assert data[..i] == data;
  }

  /** The inner `forEach`: each key of one row is added to the header set in turn. */
  method AddKeys(hs: seq<string>, keys: seq<string>) returns (headers: seq<string>)
    ensures headers == AddAll(hs, keys)
  {
    headers := hs;
    var j := 0;
    while j < |keys|
      invariant 0 <= j <= |keys|
      invariant headers == AddAll(hs, keys[..j])
    {
      if keys[j] !in headers {
        headers := headers + [keys[j]];
      }
      assert keys[..j + 1][..j] == keys[..j];
      j := j + 1;
    }
    assert keys[..j] == keys;
  }

  // ---------------------------------------------------------------------------
  // Cells (ExportToPowerBIExecutor.ts:113-127)

  /** `row[k]` on a row that is neither `null` nor `undefined`. */
  function Member(row: Value, k: string): Value
    requires !Nullish(row)
  {
    match row
    case Obj(fs) => Lookup(fs, k)
    case Arr(_) => if k == "length" then Get(row, k) else Lookup(OwnFields(row), k)
    case Str(_) => if k == "length" then Get(row, k) else Lookup(OwnFields(row), k)
    case _ => Undefined
  }

  /** `row[header] || ''`. */
  function CellValue(row: Value, header: string): Value
    requires !Nullish(row)
  {
    Or(Member(row, header), Str(""))
  }

  /** The text a cell stands for: the JSON of an object or array, `String(v)` of anything else. */
  function CellText(v: Value, stringify: Value -> string): string {
    if v.Obj? || v.Arr? then stringify(v) else ToText(v)
  }

  /** A text that must be quoted: one holding a comma, a line feed or a double quote. */
  predicate NeedsQuotes(s: string) {
    ',' in s || '\n' in s || '"' in s
  }

  /** `s.replace(/"/g, '""')`. */
  function DoubleQuotes(s: string): (r: string)
    ensures ',' in r <==> ',' in s
    ensures '\n' in r <==> '\n' in s
  {
    if s == [] then [] else (if s[0] == '"' then "\"\"" else [s[0]]) + DoubleQuotes(s[1..])
  }

  /** A text as it appears in a cell: quoted, with its quotes doubled, when it needs it, and as it is otherwise. */
  function Escape(s: string): (r: string)
    ensures !NeedsQuotes(s) ==> r == s
    ensures '\n' in r <==> '\n' in s
  {
    if NeedsQuotes(s) then "\"" + DoubleQuotes(s) + "\"" else s
  }

  /**
   * The cell exactly as `convertToCSV` writes it: a string is escaped, but
   * the JSON of an object or array is written bare, quotes and commas included.
   */
  function CellAsWritten(v: Value, stringify: Value -> string): string {
    if v.Obj? || v.Arr? then stringify(v)
    else if v.Str? then Escape(v.s)
    else ToText(v)
  }

  /** The cell as RFC 4180 requires it: the JSON of an object or array is escaped like any other text. */
  function Cell(v: Value, stringify: Value -> string): string {
    Escape(CellText(v, stringify))
  }

  lemma IntTextPlain(n: int)
    ensures !NeedsQuotes(IntText(n))
  {
    var t := NatText(if n < 0 then -n else n);
    assert forall i :: 0 <= i < |t| ==> '0' <= t[i] <= '9';
    if n < 0 {
      assert IntText(n) == "-" + t;
      assert forall i :: 0 <= i < |IntText(n)| ==> IntText(n)[i] == '-' || '0' <= IntText(n)[i] <= '9';
    }
  }

  /**
   * A value both renderings write alike: anything but an object or an
   * array, or one whose JSON holds no comma, line feed or double quote.
   */
  predicate PlainCell(v: Value, stringify: Value -> string) {
    (v.Obj? || v.Arr?) ==> !NeedsQuotes(stringify(v))
  }

  /** The two renderings agree on every value but an object or an array whose JSON needs quoting. */
  lemma CellAgrees(v: Value, stringify: Value -> string)
    requires PlainCell(v, stringify)
    ensures Cell(v, stringify) == CellAsWritten(v, stringify)
  {
    if v.Num? {
      IntTextPlain(v.n);
    } else if !v.Str? && !v.Obj? && !v.Arr? {
      KeywordsPlain();
    }
  }

  /**
   * `row[header] || ''`: a falsy member (`0`, `''`, `false`, `null`,
   * `undefined` or a missing key) gives the empty string, which both
   * renderings write as an empty field; a truthy member is kept.
   */
  lemma FalsyCellEmpty(row: Value, header: string, stringify: Value -> string)
    requires !Nullish(row)
    ensures CellValue(row, header) == Str("") <==> !Truthy(Member(row, header))
    ensures !Truthy(Member(row, header)) ==>
              CellAsWritten(CellValue(row, header), stringify) == "" && Cell(CellValue(row, header), stringify) == ""
    ensures Truthy(Member(row, header)) ==> CellValue(row, header) == Member(row, header)
  {
  }

  /** `undefined`, `null`, `true` and `false` need no quotes. */
  lemma KeywordsPlain()
    ensures !NeedsQuotes("undefined") && !NeedsQuotes("null") && !NeedsQuotes("true") && !NeedsQuotes("false")
  {
  }

  // ---------------------------------------------------------------------------
  // Records

  function Texts(values: seq<Value>, stringify: Value -> string): (ts: seq<string>)
    ensures |ts| == |values|
  {
    seq(|values|, j requires 0 <= j < |values| => CellText(values[j], stringify))
  }

  function EscapeAll(ts: seq<string>): (es: seq<string>)
    ensures |es| == |ts|
  {
    seq(|ts|, j requires 0 <= j < |ts| => Escape(ts[j]))
  }

  /** The values of one record, joined by ',' as RFC 4180 requires. */
  function Record(values: seq<Value>, stringify: Value -> string): string {
    Join(EscapeAll(Texts(values, stringify)), ",")
  }

  /** The values of one record, joined by ',' as `convertToCSV` writes them. */
  function RecordAsWritten(values: seq<Value>, stringify: Value -> string): string {
    Join(seq(|values|, j requires 0 <= j < |values| => CellAsWritten(values[j], stringify)), ",")
  }

  /** A record of plain values is written as the corrected writer would write it. */
  lemma RecordAgrees(values: seq<Value>, stringify: Value -> string)
    requires forall j :: 0 <= j < |values| ==> PlainCell(values[j], stringify)
    ensures RecordAsWritten(values, stringify) == Record(values, stringify)
  {
    var written := seq(|values|, j requires 0 <= j < |values| => CellAsWritten(values[j], stringify));
    forall j | 0 <= j < |values| ensures written[j] == EscapeAll(Texts(values, stringify))[j] {
      CellAgrees(values[j], stringify);
    }
    assert written == EscapeAll(Texts(values, stringify));
  }

  /** The cell values of a row under the headers, in header order. */
  function RowValues(headers: seq<string>, row: Value): (vs: seq<Value>)
    requires !Nullish(row)
    ensures |vs| == |headers|
  {
    seq(|headers|, j requires 0 <= j < |headers| => CellValue(row, headers[j]))
  }

  // ---------------------------------------------------------------------------
  // Reading a record back (RFC 4180, section 2, rules 4-7)

  /** The rest of a quoted field after its opening quote: its text, and what follows its closing quote. */
  function ReadQuoted(t: string): (r: (string, string))
    ensures |r.1| <= |t|
    decreases |t|
  {
    if t == [] then ([], [])
    else if t[0] == '"' then
      if |t| > 1 && t[1] == '"' then
        var (c, rest) := ReadQuoted(t[2..]);
        (['"'] + c, rest)
      else ([], t[1..])
    else
      var (c, rest) := ReadQuoted(t[1..]);
      ([t[0]] + c, rest)
  }

  /** The field texts of one record: quoted fields are unescaped, others run to the next comma. */
  function ParseRecord(t: string): (fields: seq<string>)
    ensures |fields| >= 1
    decreases |t|
  {
    if t != [] && t[0] == '"' then
      var (c, rest) := ReadQuoted(t[1..]);
      if rest != [] && rest[0] == ',' then [c] + ParseRecord(rest[1..]) else [c]
    else
      var k := IndexOfChar(t, ',', 0);
      if k == |t| then [t] else [t[..k]] + ParseRecord(t[k + 1..])
  }

  lemma QuoteStep(s: string, rest: string)
    requires s != [] && s[0] == '"'
    requires ReadQuoted(DoubleQuotes(s[1..]) + "\"" + rest) == (s[1..], rest)
    ensures ReadQuoted(DoubleQuotes(s) + "\"" + rest) == (s, rest)
  {
    var d := DoubleQuotes(s[1..]);
    assert DoubleQuotes(s) == "\"\"" + d;
    Regroup("\"\"", d, "\"", rest);
    QuotePair(d + "\"" + rest);
    assert s == [s[0]] + s[1..];
  }

  lemma Regroup(a: string, b: string, c: string, d: string)
    ensures a + b + c + d == a + (b + c + d)
  {
  }

  /** A doubled quote reads as one quote character of the field. */
  lemma QuotePair(u: string)
    ensures ReadQuoted("\"\"" + u) == (['"'] + ReadQuoted(u).0, ReadQuoted(u).1)
  {
    assert ("\"\"" + u)[2..] == u;
  }

  lemma PlainStep(s: string, rest: string)
    requires s != [] && s[0] != '"'
    requires ReadQuoted(DoubleQuotes(s[1..]) + "\"" + rest) == (s[1..], rest)
    ensures ReadQuoted(DoubleQuotes(s) + "\"" + rest) == (s, rest)
  {
    var d := DoubleQuotes(s[1..]);
    assert DoubleQuotes(s) == [s[0]] + d;
    Regroup([s[0]], d, "\"", rest);
    var u := d + "\"" + rest;
    assert ([s[0]] + u)[1..] == u;
    assert s == [s[0]] + s[1..];
  }

  /** A doubled-quote text followed by the closing quote reads back as the original text. */
  lemma {:induction false} ReadQuotedDoubled(s: string, rest: string)
    requires rest == [] || rest[0] != '"'
    ensures ReadQuoted(DoubleQuotes(s) + "\"" + rest) == (s, rest)
    decreases |s|
  {
    if s == [] {
      assert DoubleQuotes(s) + "\"" + rest == ['"'] + rest;
      assert (['"'] + rest)[1..] == rest;
    } else {
      ReadQuotedDoubled(s[1..], rest);
      if s[0] == '"' {
        QuoteStep(s, rest);
      } else {
        PlainStep(s, rest);
      }
    }
  }

  lemma {:induction false} IndexOfCommaAfter(a: string, b: string)
    requires ',' !in a
    ensures b != [] && b[0] == ',' ==> IndexOfChar(a + b, ',', 0) == |a|
    ensures b == [] ==> IndexOfChar(a + b, ',', 0) == |a|
  {
    var t := a + b;
    var k := IndexOfChar(t, ',', 0);
    if b != [] && b[0] == ',' {
      assert t[|a|] == ',';
    }
    if b == [] {
      assert t == a;
    }
  }

  /** One escaped field, read back: its text, and the rest of the record after the separating comma. */
  lemma EscapedField(s: string, rest: string)
    requires rest == [] || rest[0] == ','
    ensures var t := Escape(s) + rest;
      && (t != [] && t[0] == '"' ==> ReadQuoted(t[1..]) == (s, rest))
      && (t == [] || t[0] != '"' ==> IndexOfChar(t, ',', 0) == |s| && t[..|s|] == s && t[|s|..] == rest)
  {
    if NeedsQuotes(s) {
      QuotedField(s, rest);
    } else {
      BareField(s, rest);
    }
  }

  lemma QuotedField(s: string, rest: string)
    requires rest == [] || rest[0] == ','
    requires NeedsQuotes(s)
    ensures var t := Escape(s) + rest; t[0] == '"' && ReadQuoted(t[1..]) == (s, rest)
  {
    ReadQuotedDoubled(s, rest);
    QuotedRest(DoubleQuotes(s), rest);
  }

  lemma QuotedRest(d: string, rest: string)
    ensures var t := "\"" + d + "\"" + rest; t[0] == '"' && t[1..] == d + "\"" + rest
  {
  }

  lemma BareField(s: string, rest: string)
    requires rest == [] || rest[0] == ','
    requires !NeedsQuotes(s)
    ensures var t := Escape(s) + rest;
      && (t == [] || t[0] != '"')
      && IndexOfChar(t, ',', 0) == |s| && t[..|s|] == s && t[|s|..] == rest
  {
    var t := Escape(s) + rest;
    IndexOfCommaAfter(s, rest);
    if s != [] {
      assert t[0] == s[0];
    }
  }

  /** An escaped field alone reads back as its text. */
  lemma FieldAlone(s: string)
    ensures ParseRecord(Escape(s)) == [s]
  {
    var t := Escape(s);
    assert t == Escape(s) + [];
    EscapedField(s, []);
  }

  /** An escaped field followed by a comma reads back as its text, then the fields after the comma. */
  lemma FieldThenRest(s: string, tail: string)
    ensures ParseRecord(Escape(s) + ("," + tail)) == [s] + ParseRecord(tail)
  {
    var t := Escape(s) + ("," + tail);
    EscapedField(s, "," + tail);
    assert ("," + tail)[1..] == tail;
    if t[0] != '"' {
      assert t[|s| + 1..] == t[|s|..][1..];
    }
  }

  /** Round trip: reading back a record written from the texts `ts` gives `ts`. */
  lemma {:induction false} RecordRoundTrip(ts: seq<string>)
    requires |ts| >= 1
    ensures ParseRecord(Join(EscapeAll(ts), ",")) == ts
    decreases |ts|
  {
    var es := EscapeAll(ts);
    if |ts| == 1 {
      FieldAlone(ts[0]);
    } else {
      var tail := Join(es[1..], ",");
      assert es[1..] == EscapeAll(ts[1..]);
      RecordRoundTrip(ts[1..]);
      assert Join(es, ",") == Escape(ts[0]) + ("," + tail);
      FieldThenRest(ts[0], tail);
      assert ts == [ts[0]] + ts[1..];
    }
  }

  /** Every record the corrected writer produces reads back as the texts of its values. */
  lemma RecordReadsBack(values: seq<Value>, stringify: Value -> string)
    requires |values| >= 1
    ensures ParseRecord(Record(values, stringify)) == Texts(values, stringify)
  {
    RecordRoundTrip(Texts(values, stringify));
  }

  /**
   * As written, a record holding one object value whose JSON has a comma and
   * does not start with a quote (every non-empty JSON object or array with
   * two members) reads back as more than one field.
   */
  lemma ObjectCellSplits(v: Value, stringify: Value -> string)
    requires v.Obj? || v.Arr?
    requires ',' in stringify(v) && stringify(v)[0] != '"'
    ensures |ParseRecord(RecordAsWritten([v], stringify))| >= 2
    ensures ParseRecord(RecordAsWritten([v], stringify)) != Texts([v], stringify)
  {
    var t := RecordAsWritten([v], stringify);
    assert t == stringify(v);
    var k := IndexOfChar(t, ',', 0);
    assert k < |t|;
  }

  // ---------------------------------------------------------------------------
  // The document (ExportToPowerBIExecutor.ts:94-132)

  /**
   * The data lines, one per row in order, or the exception of the first row
   * that is `null` or `undefined` when there is a header to read from it.
   */
  function RowLines(headers: seq<string>, rows: seq<Value>, stringify: Value -> string): (r: Result<seq<string>, Thrown>)
    ensures r.Ok? <==> headers == [] || forall i :: 0 <= i < |rows| ==> !Nullish(rows[i])
    ensures r.Ok? ==> |r.value| == |rows|
    ensures r.Ok? && headers != [] ==> forall i :: 0 <= i < |rows| ==> r.value[i] == RecordAsWritten(RowValues(headers, rows[i]), stringify)
    ensures r.Ok? && headers == [] ==> forall i :: 0 <= i < |rows| ==> r.value[i] == ""
    decreases |rows|
  {
    if rows == [] then Ok([])
    else if headers != [] && Nullish(rows[0]) then Err(ReadError(rows[0], headers[0]))
    else
      var line := if headers == [] then "" else RecordAsWritten(RowValues(headers, rows[0]), stringify);
      match RowLines(headers, rows[1..], stringify)
      case Err(e) => Err(e)
      case Ok(lines) => Ok([line] + lines)
  }

  /** `convertToCSV(data)`: the header line, then the data lines, joined by '\n'; '' for no data. */
  function Csv(data: seq<Value>, stringify: Value -> string): (r: Result<string, Thrown>)
    ensures data == [] ==> r == Ok("")
    ensures r.Err? <==> HeaderUnion(data) != [] && exists i :: 0 <= i < |data| && Nullish(data[i])
    ensures r.Ok? && data != [] ==> StartsWith(r.value, Join(HeaderUnion(data), ","))
  {
    if data == [] then Ok("")
    else
      var headers := HeaderUnion(data);
      match RowLines(headers, data, stringify)
      case Err(e) => Err(e)
      case Ok(lines) =>
        var all := [Join(headers, ",")] + lines;
        assert all[0] == Join(headers, ",") && all[1..] == lines;
        Ok(Join(all, "\n"))
  }

  /** `convertToCSV`: the header set is filled by a loop, then every row is rendered. */
  method ConvertToCsv(data: seq<Value>, stringify: Value -> string) returns (csv: Result<string, Thrown>)
    ensures csv == Csv(data, stringify)
  {
    if |data| == 0 {
      return Ok("");
    }
    var headerArray := CollectHeaders(data);
    var lines := RowLines(headerArray, data, stringify);
    if lines.Err? {
      return Err(lines.error);
    }
    csv := Ok(Join([Join(headerArray, ",")] + lines.value, "\n"));
  }

  /** A row whose cells hold no line feed is written on one line. */
  lemma RecordLineFree(headers: seq<string>, row: Value, stringify: Value -> string)
    requires !Nullish(row)
    requires forall h :: h in headers ==> '\n' !in CellText(CellValue(row, h), stringify)
    ensures '\n' !in Record(RowValues(headers, row), stringify)
  {
    var ts := Texts(RowValues(headers, row), stringify);
    forall j | 0 <= j < |ts| ensures '\n' !in EscapeAll(ts)[j] {
      assert headers[j] in headers;
    }
    JoinFree(EscapeAll(ts), ",", '\n');
  }

  /**
   * The document `convertToCSV` writes has one line for the header and one
   * per row, in order, when no header or cell text holds a line feed; the
   * header line is the headers joined by commas, and when every cell is
   * plain (no object or array whose JSON needs quoting) each data line
   * reads back as the texts of the row's values.
   */
  lemma CsvLines(data: seq<Value>, stringify: Value -> string)
    requires data != [] && Csv(data, stringify).Ok?
    requires HeaderUnion(data) != []
    requires forall h :: h in HeaderUnion(data) ==> '\n' !in h
    requires forall i :: 0 <= i < |data| ==> !Nullish(data[i])
    requires forall i, h :: 0 <= i < |data| && h in HeaderUnion(data) ==> '\n' !in CellText(CellValue(data[i], h), stringify)
    requires forall i, h :: 0 <= i < |data| && h in HeaderUnion(data) ==> PlainCell(CellValue(data[i], h), stringify)
    ensures var lines := Split(Csv(data, stringify).value, '\n');
      && |lines| == |data| + 1
      && lines[0] == Join(HeaderUnion(data), ",")
      && forall i :: 0 <= i < |data| ==> ParseRecord(lines[i + 1]) == Texts(RowValues(HeaderUnion(data), data[i]), stringify)
  {
    var headers := HeaderUnion(data);
    var rows := RowLines(headers, data, stringify).value;
    var all := [Join(headers, ",")] + rows;
    assert Csv(data, stringify).value == Join(all, "\n");
    assert '\n' !in Join(headers, ",") by {
      JoinFree(headers, ",", '\n');
    }
    DataLines(headers, data, stringify, rows);
    SplitJoin(all, '\n');
    assert forall i :: 0 <= i < |data| ==> all[i + 1] == rows[i];
  }

  /** Each data line, on plain cells without line feeds, is the row's record: one line that reads back as its texts. */
  lemma DataLines(headers: seq<string>, data: seq<Value>, stringify: Value -> string, rows: seq<string>)
    requires headers != [] && RowLines(headers, data, stringify) == Ok(rows)
    requires forall i :: 0 <= i < |data| ==> !Nullish(data[i])
    requires forall i, h :: 0 <= i < |data| && h in headers ==> '\n' !in CellText(CellValue(data[i], h), stringify)
    requires forall i, h :: 0 <= i < |data| && h in headers ==> PlainCell(CellValue(data[i], h), stringify)
    ensures |rows| == |data|
    ensures forall i :: 0 <= i < |data| ==> '\n' !in rows[i]
    ensures forall i :: 0 <= i < |data| ==> ParseRecord(rows[i]) == Texts(RowValues(headers, data[i]), stringify)
  {
    forall i | 0 <= i < |data|
      ensures '\n' !in rows[i] && ParseRecord(rows[i]) == Texts(RowValues(headers, data[i]), stringify)
    {
      var vs := RowValues(headers, data[i]);
      forall j | 0 <= j < |vs| ensures PlainCell(vs[j], stringify) {
        assert headers[j] in headers;
      }
      RecordAgrees(vs, stringify);
      RecordLineFree(headers, data[i], stringify);
      RecordReadsBack(vs, stringify);
    }
  }

  /** A join of texts without `c`, with a separator without `c`, has no `c`. */
  lemma {:induction false} JoinFree(parts: seq<string>, sep: string, c: char)
    requires c !in sep
    requires forall i :: 0 <= i < |parts| ==> c !in parts[i]
    ensures c !in Join(parts, sep)
    decreases |parts|
  {
    if |parts| > 1 {
      JoinFree(parts[1..], sep, c);
    }
  }
}

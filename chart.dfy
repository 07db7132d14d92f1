/**
 * The per-chart reshaping of the export's rows (`optimizeDataForChart`).
 * Every branch maps the rows one to one; the bar, pie, line and scatter
 * branches add computed fields in front of the row's own fields, which are
 * spread last and so override them; table rows pass through, with a string
 * wrapped as `{text}`; any other chart type numbers the rows with `id`.
 *
 * `Number(...)` on text, the date of a day in the past and `Math.random()` are
 * parameters; numbers are integers, so a random fallback that JavaScript keeps
 * fractional is rounded down here.
 */
module Chart {
  import opened Wrappers
  import opened Text
  import opened Js

  /** The nondeterministic and floating-point parts of the reshaping. */
  datatype ChartOracles = ChartOracles(
    /** `Number(s)` on a text: the number it denotes, or `None` for `NaN`. */
    parseNumber: string -> Option<int>,
    /** `new Date(Date.now() - k * 86400000).toISOString().split('T')[0]`: the date `k` days ago. */
    daysAgo: nat -> string,
    /** The `Math.random()` drawn for row `i` and field `f`. */
    random: (nat, string) -> real)

  /** `Math.random()` lies in [0, 1). */
  ghost predicate RandomInRange(o: ChartOracles) {
    forall i, f :: 0.0 <= o.random(i, f) < 1.0
  }

  datatype Kind = BarKind | PieKind | LineKind | ScatterKind | TableKind | DefaultKind

  /** The branch of the `switch (chartType.toLowerCase())`. */
  function KindOf(chartType: string): (k: Kind)
    ensures LowerAscii(chartType) == "bar" ==> k == BarKind
    ensures LowerAscii(chartType) == "pie" ==> k == PieKind
    ensures LowerAscii(chartType) in {"table", "matrix"} <==> k == TableKind
  {
    var t := LowerAscii(chartType);
    if t == "bar" || t == "column" then BarKind
    else if t == "pie" || t == "doughnut" then PieKind
    else if t == "line" || t == "area" || t == "trend" then LineKind
    else if t == "scatter" then ScatterKind
    else if t == "table" || t == "matrix" then TableKind
    else DefaultKind
  }

  /** The branches that call `Object.keys(item)`, which throws on `null` and `undefined`. */
  predicate ReadsKeys(k: Kind) {
    k in {BarKind, PieKind, LineKind, ScatterKind}
  }

  /** `Number(v)`: `None` for `NaN`; objects and arrays are converted through their text. */
  function NumberOf(v: Value, parseNumber: string -> Option<int>): Option<int> {
    match v
    case Undefined => None
    case Null => Some(0)
    case Bool(b) => Some(if b then 1 else 0)
    case Num(n) => Some(n)
    case Str(s) => parseNumber(s)
    case _ => parseNumber(ToText(v))
  }

  /** `Number(v) || d`: the number, or `d` when it is `NaN` or 0. */
  function NumberOr(v: Value, d: int, parseNumber: string -> Option<int>): (n: int)
    ensures NumberOf(v, parseNumber) == None || NumberOf(v, parseNumber) == Some(0) ==> n == d
    ensures NumberOf(v, parseNumber).Some? && NumberOf(v, parseNumber).value != 0 ==> n == NumberOf(v, parseNumber).value
  {
    match NumberOf(v, parseNumber)
    case None => d
    case Some(x) => if x == 0 then d else x
  }

  /** `item[k]` for a property name `k`: the own field, or `undefined`. */
  function Prop(item: Value, k: string): Value {
    Lookup(OwnFields(item), k)
  }

  /** `keys[i]` used as a property name: past the end it is `undefined`, read as the name "undefined". */
  function KeyAt(item: Value, i: nat): string {
    var ks := Keys(OwnFields(item));
    if i < |ks| then ks[i] else "undefined"
  }

  /** `a || b || c || d`. */
  function FirstTruthy(a: Value, b: Value, c: Value, d: Value): (r: Value)
    ensures Truthy(a) ==> r == a
    ensures !Truthy(a) && Truthy(b) ==> r == b
    ensures !Truthy(a) && !Truthy(b) && Truthy(c) ==> r == c
    ensures !Truthy(a) && !Truthy(b) && !Truthy(c) ==> r == d
  {
    Or(a, Or(b, Or(c, d)))
  }

  /** `{ ...computed, ...item }`. */
  function Over(computed: seq<Field>, item: Value): Value {
    Obj(Spread(computed, OwnFields(item)))
  }

  /** Lines 16-23: the `category` and `value` computed for a bar or column chart. */
  function BarFields(item: Value, i: nat, o: ChartOracles): seq<Field> {
    [ Field("category", FirstTruthy(Prop(item, KeyAt(item, 0)), Prop(item, "text"), Prop(item, "name"),
                                    Str("Item " + NatText(i + 1)))),
      Field("value", Num(NumberOr(FirstTruthy(Prop(item, KeyAt(item, 1)), Prop(item, "value"), Prop(item, "count"),
                                              Num(i + 1)), 0, o.parseNumber))) ]
  }

  /** Lines 28-35: the `label` and `value` computed for a pie or doughnut chart. */
  function PieFields(item: Value, i: nat, o: ChartOracles): seq<Field> {
    [ Field("label", FirstTruthy(Prop(item, KeyAt(item, 0)), Prop(item, "text"), Prop(item, "name"),
                                 Str("Segment " + NatText(i + 1)))),
      Field("value", Num(NumberOr(FirstTruthy(Prop(item, KeyAt(item, 1)), Prop(item, "value"), Prop(item, "count"),
                                              Num(1)), 1, o.parseNumber))) ]
  }

  /** `Math.floor(Math.random() * 80) + 20`. */
  function MovingAverage(r: real): int {
    (r * 80.0).Floor + 20
  }

  /** Lines 41-50: the `date`, `value`, `trend_period` and `moving_average` computed for row `i` of `n` of a line chart. */
  function LineFields(item: Value, i: nat, n: nat, o: ChartOracles): seq<Field>
    requires i < n
  {
    [ Field("date", FirstTruthy(Prop(item, KeyAt(item, 0)), Prop(item, "date"), Prop(item, "time"),
                                Str(o.daysAgo(n - i)))),
      Field("value", Num(NumberOr(FirstTruthy(Prop(item, KeyAt(item, 1)), Prop(item, "value"), Prop(item, "count"),
                                              Num(i)), 0, o.parseNumber))),
      Field("trend_period", Str("Period_" + NatText(i / 7 + 1))),
      Field("moving_average", Num(MovingAverage(o.random(i, "moving_average")))) ]
  }

  /** `Math.random() * 100`, rounded down to an integer. */
  function Percent(r: real): Value {
    Num((r * 100.0).Floor)
  }

  /** Lines 54-63: the `x_value`, `y_value`, `size` and `color_group` computed for a scatter chart. */
  function ScatterFields(item: Value, i: nat, o: ChartOracles): seq<Field> {
    [ Field("x_value", Num(NumberOr(Or(Prop(item, KeyAt(item, 0)), Or(Prop(item, "x"), Percent(o.random(i, "x_value")))),
                                    0, o.parseNumber))),
      Field("y_value", Num(NumberOr(Or(Prop(item, KeyAt(item, 1)), Or(Prop(item, "y"), Percent(o.random(i, "y_value")))),
                                    0, o.parseNumber))),
      Field("size", Num(NumberOr(Or(Prop(item, "size"), Or(Prop(item, "value"), Num(5))), 5, o.parseNumber))),
      Field("color_group", Str("Group_" + NatText(i % 4 + 1))) ]
  }

  /** Lines 68-73: a string row becomes `{text}`; any other row is kept. */
  function TableRow(item: Value): Value {
    if item.Str? then Obj([Field("text", item)]) else item
  }

  /** Lines 77-89: a string row becomes `{id, text, value}`; any other row gets an `id` its own fields may override. */
  function DefaultRow(item: Value, i: nat): Value {
    if item.Str? then Obj([Field("id", Num(i + 1)), Field("text", item), Field("value", Num(i + 1))])
    else Over([Field("id", Num(i + 1))], item)
  }

  /** The reshaped row `i` of `n`, or the exception `Object.keys` throws on a `null` or `undefined` row. */
  function Reshape(kind: Kind, item: Value, i: nat, n: nat, o: ChartOracles): (r: Result<Value, Thrown>)
    requires i < n
    ensures r.Err? <==> ReadsKeys(kind) && Nullish(item)
  {
    if ReadsKeys(kind) && Nullish(item) then Err(ObjectKeys(item).error)
    else
      match kind
      case BarKind => Ok(Over(BarFields(item, i, o), item))
      case PieKind => Ok(Over(PieFields(item, i, o), item))
      case LineKind => Ok(Over(LineFields(item, i, n, o), item))
      case ScatterKind => Ok(Over(ScatterFields(item, i, o), item))
      case TableKind => Ok(TableRow(item))
      case DefaultKind => Ok(DefaultRow(item, i))
  }

  /** `data.map(...)` from row `i` on: the rows reshaped in order, or the first exception. */
  function ReshapeFrom(kind: Kind, data: seq<Value>, i: nat, o: ChartOracles): (r: Result<seq<Value>, Thrown>)
    requires i <= |data|
    ensures r.Ok? ==> |r.value| == |data| - i
    ensures r.Ok? ==> forall j :: i <= j < |data| ==> Reshape(kind, data[j], j, |data|, o) == Ok(r.value[j - i])
    ensures r.Err? <==> exists j :: i <= j < |data| && ReadsKeys(kind) && Nullish(data[j])
    decreases |data| - i
  {
    if i == |data| then Ok([])
    else
      match Reshape(kind, data[i], i, |data|, o)
      case Err(e) => Err(e)
      case Ok(row) =>
        match ReshapeFrom(kind, data, i + 1, o)
        case Err(e) => Err(e)
        case Ok(rest) => Ok([row] + rest)
  }

  /** `optimizeDataForChart(data, chartType)`. */
  function OptimizeDataForChart(data: Value, chartType: string, o: ChartOracles): (r: Result<seq<Value>, Thrown>)
    ensures !data.Arr? || data.items == [] ==> r == Ok([])
  {
    if !data.Arr? || |data.items| == 0 then Ok([])
    else ReshapeFrom(KindOf(chartType), data.items, 0, o)
  }

  /**
   * One row out per row in; the map fails exactly when the chart branch
   * calls `Object.keys` and some row is `null` or `undefined`.
   */
  lemma OptimizeKeepsRows(data: Value, chartType: string, o: ChartOracles)
    requires data.Arr?
    ensures var r := OptimizeDataForChart(data, chartType, o);
      && (r.Ok? ==> |r.value| == |data.items|)
      && (r.Err? <==> ReadsKeys(KindOf(chartType)) && exists j :: 0 <= j < |data.items| && Nullish(data.items[j]))
  {
  }

  /** An object whose keys are distinct, as JavaScript objects' keys always are. */
  predicate PlainObject(v: Value) {
    v.Obj? && UniqueKeys(v.fields)
  }

  /** Reading a spread row: the row's own field when it has one, the computed field otherwise. */
  lemma OverRead(computed: seq<Field>, item: Value, k: string)
    requires PlainObject(item)
    ensures Lookup(Over(computed, item).fields, k)
            == if HasKey(item.fields, k) then Lookup(item.fields, k) else Lookup(computed, k)
  {
    SpreadLookup(computed, item.fields, k);
  }

  /**
   * Lines 16-23: a bar row's category falls back from the first field's value
   * to `text`, `name` and `Item i+1`; its value from the second field's value
   * to `value`, `count` and `i+1`, through `Number`, with 0 for `NaN` and 0;
   * the row's own fields are kept and override both.
   */
  lemma BarRowFields(item: Value, i: nat, n: nat, o: ChartOracles, k: string)
    requires PlainObject(item) && i < n
    ensures var row := Reshape(BarKind, item, i, n, o).value.fields;
      && Lookup(row, "category") == (if HasKey(item.fields, "category") then Lookup(item.fields, "category")
         else FirstTruthy(Prop(item, KeyAt(item, 0)), Prop(item, "text"), Prop(item, "name"), Str("Item " + NatText(i + 1))))
      && Lookup(row, "value") == (if HasKey(item.fields, "value") then Lookup(item.fields, "value")
         else Num(NumberOr(FirstTruthy(Prop(item, KeyAt(item, 1)), Prop(item, "value"), Prop(item, "count"), Num(i + 1)),
                           0, o.parseNumber)))
      && (HasKey(item.fields, k) ==> Lookup(row, k) == Lookup(item.fields, k))
  {
    OverRead(BarFields(item, i, o), item, "category");
    OverRead(BarFields(item, i, o), item, "value");
    OverRead(BarFields(item, i, o), item, k);
  }

  /**
   * Lines 28-35: a pie row's label falls back to `Segment i+1`, and its value
   * to 1, which also replaces `NaN` and 0; the row's own fields override both.
   */
  lemma PieRowFields(item: Value, i: nat, n: nat, o: ChartOracles, k: string)
    requires PlainObject(item) && i < n
    ensures var row := Reshape(PieKind, item, i, n, o).value.fields;
      && Lookup(row, "label") == (if HasKey(item.fields, "label") then Lookup(item.fields, "label")
         else FirstTruthy(Prop(item, KeyAt(item, 0)), Prop(item, "text"), Prop(item, "name"), Str("Segment " + NatText(i + 1))))
      && (!HasKey(item.fields, "value") ==> Lookup(row, "value").Num? && Lookup(row, "value").n != 0)
      && (!HasKey(item.fields, "value") && Keys(item.fields) == [] ==> Lookup(row, "value") == Num(1))
      && (HasKey(item.fields, k) ==> Lookup(row, k) == Lookup(item.fields, k))
  {
    OverRead(PieFields(item, i, o), item, "label");
    OverRead(PieFields(item, i, o), item, "value");
    OverRead(PieFields(item, i, o), item, k);
    if !HasKey(item.fields, "value") && Keys(item.fields) == [] {
      LookupMissing(item.fields, "undefined");
      LookupMissing(item.fields, "value");
      LookupMissing(item.fields, "count");
    }
  }

  /** Lines 41-50: a line row's period is `Period_<i/7+1>` unless the row sets it itself. */
  lemma LineRowPeriod(item: Value, i: nat, n: nat, o: ChartOracles)
    requires PlainObject(item) && i < n
    ensures !HasKey(item.fields, "trend_period") ==>
      Lookup(Reshape(LineKind, item, i, n, o).value.fields, "trend_period") == Str("Period_" + NatText(i / 7 + 1))
  {
    var fs := LineFields(item, i, n, o);
    OverRead(fs, item, "trend_period");
    LookupAt(fs, 2);
  }

  /** Lines 41-50: a line row's moving average lies in [20, 99] unless the row sets it itself. */
  lemma LineRowAverage(item: Value, i: nat, n: nat, o: ChartOracles)
    requires PlainObject(item) && i < n && RandomInRange(o)
    ensures var row := Reshape(LineKind, item, i, n, o).value.fields;
      !HasKey(item.fields, "moving_average") ==>
        Lookup(row, "moving_average").Num? && 20 <= Lookup(row, "moving_average").n <= 99
  {
    var fs := LineFields(item, i, n, o);
    OverRead(fs, item, "moving_average");
    LookupAt(fs, 3);
    var r := o.random(i, "moving_average");
    assert 0.0 <= r < 1.0;
    assert 0.0 <= r * 80.0 < 80.0;
  }

  /** Lines 41-50: an empty row's date is the day `n - i` days ago. */
  lemma LineRowDate(item: Value, i: nat, n: nat, o: ChartOracles)
    requires PlainObject(item) && i < n && Keys(item.fields) == []
    ensures Lookup(Reshape(LineKind, item, i, n, o).value.fields, "date") == Str(o.daysAgo(n - i))
  {
    var fs := LineFields(item, i, n, o);
    OverRead(fs, item, "date");
    LookupMissing(item.fields, "undefined");
    LookupMissing(item.fields, "date");
    LookupMissing(item.fields, "time");
  }

  /** Lines 54-63: a scatter row's colour group cycles through `Group_1` to `Group_4`, and its size defaults to 5. */
  lemma ScatterRowFields(item: Value, i: nat, n: nat, o: ChartOracles)
    requires PlainObject(item) && i < n
    ensures var row := Reshape(ScatterKind, item, i, n, o).value.fields;
      && (!HasKey(item.fields, "color_group") ==> Lookup(row, "color_group") == Str("Group_" + NatText(i % 4 + 1)))
      && (!HasKey(item.fields, "size") && !HasKey(item.fields, "value") ==> Lookup(row, "size") == Num(5))
  {
    var fs := ScatterFields(item, i, o);
    OverRead(fs, item, "color_group");
    OverRead(fs, item, "size");
    LookupAt(fs, 2);
    LookupAt(fs, 3);
    if !HasKey(item.fields, "size") && !HasKey(item.fields, "value") {
      LookupMissing(item.fields, "size");
      LookupMissing(item.fields, "value");
    }
  }

  /** Lines 65-73: a table or matrix keeps every row but a string, which becomes `{text}`; it never fails. */
  lemma TableRows(data: Value, chartType: string, o: ChartOracles)
    requires data.Arr? && KindOf(chartType) == TableKind
    ensures var r := OptimizeDataForChart(data, chartType, o);
      && r.Ok? && |r.value| == |data.items|
      && forall j :: 0 <= j < |data.items| ==>
           r.value[j] == if data.items[j].Str? then Obj([Field("text", data.items[j])]) else data.items[j]
  {
    var r := OptimizeDataForChart(data, chartType, o);
    if data.items != [] {
      forall j | 0 <= j < |data.items|
        ensures r.value[j] == if data.items[j].Str? then Obj([Field("text", data.items[j])]) else data.items[j]
      {
        assert Reshape(TableKind, data.items[j], j, |data.items|, o) == Ok(r.value[j]);
      }
    }
  }

  /**
   * Lines 75-89: under any other chart type a string row becomes
   * `{id: i+1, text, value: i+1}`, and an object row gets `id` i+1 unless it
   * has its own, keeping all its fields.
   */
  lemma DefaultRows(data: Value, chartType: string, o: ChartOracles, j: nat, k: string)
    requires data.Arr? && KindOf(chartType) == DefaultKind && j < |data.items|
    ensures var r := OptimizeDataForChart(data, chartType, o);
      && r.Ok? && |r.value| == |data.items|
      && (data.items[j].Str? ==> r.value[j] == Obj([Field("id", Num(j + 1)), Field("text", data.items[j]), Field("value", Num(j + 1))]))
      && (PlainObject(data.items[j]) ==>
            && Lookup(r.value[j].fields, "id") == (if HasKey(data.items[j].fields, "id") then Lookup(data.items[j].fields, "id") else Num(j + 1))
            && (HasKey(data.items[j].fields, k) ==> Lookup(r.value[j].fields, k) == Lookup(data.items[j].fields, k)))
  {
    var r := OptimizeDataForChart(data, chartType, o);
    var item := data.items[j];
    assert Reshape(DefaultKind, item, j, |data.items|, o) == Ok(r.value[j]);
    if PlainObject(item) {
      OverRead([Field("id", Num(j + 1))], item, "id");
      OverRead([Field("id", Num(j + 1))], item, k);
    }
  }
}

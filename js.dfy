/**
 * The JavaScript values the core manipulates (what `JSON.parse` yields plus
 * `undefined`), with the few language operations the core relies on:
 * truthiness, `||`, property reads that throw on `null`/`undefined`,
 * `Object.keys`, object spread, `String(v)` and `===`.
 *
 * Objects are field lists in insertion order; keys are distinct in JavaScript
 * and a field list with a repeated key is read by its first entry. Numbers
 * are integers. Arrays and objects are compared by reference with `===`, and
 * two values of the model are never the same reference.
 */
module Js {
  import opened Wrappers
  import opened Text

  datatype Value =
    | Undefined
    | Null
    | Bool(b: bool)
    | Num(n: int)
    | Str(s: string)
    | Arr(items: seq<Value>)
    | Obj(fields: seq<Field>)

  datatype Field = Field(key: string, val: Value)

  /** An exception in flight, with its `message`. */
  datatype Thrown = Thrown(message: string)

  predicate Nullish(v: Value) {
    v.Undefined? || v.Null?
  }

  /** JavaScript truthiness (`!!v`). */
  predicate Truthy(v: Value) {
    match v
    case Undefined => false
    case Null => false
    case Bool(b) => b
    case Num(n) => n != 0
    case Str(s) => s != []
    case _ => true
  }

  /** `a || b`. */
  function Or(a: Value, b: Value): (r: Value)
    ensures Truthy(a) ==> r == a
    ensures !Truthy(a) ==> r == b
  {
    if Truthy(a) then a else b
  }

  function Keys(fs: seq<Field>): (ks: seq<string>)
    ensures |ks| == |fs|
    ensures forall i :: 0 <= i < |fs| ==> ks[i] == fs[i].key
  {
    if fs == [] then [] else [fs[0].key] + Keys(fs[1..])
  }

  predicate UniqueKeys(fs: seq<Field>) {
    forall i, j :: 0 <= i < j < |fs| ==> fs[i].key != fs[j].key
  }

  /** `k` names a field of `fs`. */
  predicate HasKey(fs: seq<Field>, k: string) {
    k in Keys(fs)
  }

  /** The value of the first field named `k`, or `undefined`. */
  function Lookup(fs: seq<Field>, k: string): Value {
    if fs == [] then Undefined
    else if fs[0].key == k then fs[0].val
    else Lookup(fs[1..], k)
  }

  /** A field with another key is passed over. */
  lemma LookupSkip(fs: seq<Field>, k: string)
    requires fs != [] && fs[0].key != k
    ensures Lookup(fs, k) == Lookup(fs[1..], k)
  {
  }

  /** Reading the key of the first field that carries it gives that field's value. */
  lemma {:induction false} LookupAt(fs: seq<Field>, i: nat)
    requires i < |fs| && forall j :: 0 <= j < i ==> fs[j].key != fs[i].key
    ensures Lookup(fs, fs[i].key) == fs[i].val
  {
    if i > 0 {
      LookupAt(fs[1..], i - 1);
    }
  }

  lemma {:induction false} LookupMissing(fs: seq<Field>, k: string)
    requires !HasKey(fs, k)
    ensures Lookup(fs, k) == Undefined
  {
    if fs != [] {
      assert Keys(fs) == [fs[0].key] + Keys(fs[1..]);
      LookupMissing(fs[1..], k);
    }
  }

  /** `o[k] = v` on an object: the value is replaced in place when the key exists, appended otherwise. */
  function Assign(fs: seq<Field>, k: string, v: Value): seq<Field>
  {
    if fs == [] then [Field(k, v)]
    else if fs[0].key == k then
      assert ([Field(k, v)] + fs[1..])[1..] == fs[1..];
      [Field(k, v)] + fs[1..]
    else
      var rest := Assign(fs[1..], k, v);
      assert ([fs[0]] + rest)[1..] == rest;
      [fs[0]] + rest
  }

  /** Assigning keeps the keys and their order, and appends `k` when it is new. */
  lemma {:induction false} AssignKeys(fs: seq<Field>, k: string, v: Value)
    ensures Keys(Assign(fs, k, v)) == if HasKey(fs, k) then Keys(fs) else Keys(fs) + [k]
  {
    var r := Assign(fs, k, v);
    if fs == [] {
    } else if fs[0].key == k {
      assert r[1..] == fs[1..];
    } else {
      AssignKeys(fs[1..], k, v);
      assert r[1..] == Assign(fs[1..], k, v);
      assert Keys(fs) == [fs[0].key] + Keys(fs[1..]);
    }
  }

  /** After `o[k] = v`, reading `k` gives `v` and every other key reads as before. */
  lemma {:induction false} AssignLookup(fs: seq<Field>, k: string, v: Value, k': string)
    ensures Lookup(Assign(fs, k, v), k') == if k' == k then v else Lookup(fs, k')
  {
    if fs != [] && fs[0].key != k {
      AssignLookup(fs[1..], k, v, k');
    }
  }

  /** After `o[k] = v`, every key other than `k` reads as before. */
  lemma AssignOthers(fs: seq<Field>, k: string, v: Value)
    ensures forall k' :: k' != k ==> Lookup(Assign(fs, k, v), k') == Lookup(fs, k')
  {
    forall k' | k' != k ensures Lookup(Assign(fs, k, v), k') == Lookup(fs, k') {
      AssignLookup(fs, k, v, k');
    }
  }

  lemma {:induction false} AssignUnique(fs: seq<Field>, k: string, v: Value)
    requires UniqueKeys(fs)
    ensures UniqueKeys(Assign(fs, k, v))
  {
    var r := Assign(fs, k, v);
    AssignKeys(fs, k, v);
    forall i, j | 0 <= i < j < |r| ensures r[i].key != r[j].key {
      assert Keys(r)[i] == r[i].key && Keys(r)[j] == r[j].key;
      if j < |fs| {
        assert Keys(fs)[i] == fs[i].key && Keys(fs)[j] == fs[j].key;
      } else {
        assert !HasKey(fs, k) && Keys(r)[j] == k && Keys(fs)[i] == Keys(r)[i];
      }
    }
  }

  /** `{...fs, ...gs}`: the fields of `gs` assigned, in order, over those of `fs`. */
  function Spread(fs: seq<Field>, gs: seq<Field>): seq<Field>
    decreases |gs|
  {
    if gs == [] then fs else Spread(Assign(fs, gs[0].key, gs[0].val), gs[1..])
  }

  /** Fields of a spread result: the later source wins, keys absent from `gs` keep their value. */
  lemma {:induction false} SpreadLookup(fs: seq<Field>, gs: seq<Field>, k: string)
    requires UniqueKeys(gs)
    ensures Lookup(Spread(fs, gs), k) == if HasKey(gs, k) then Lookup(gs, k) else Lookup(fs, k)
    decreases |gs|
  {
    if gs != [] {
      var fs' := Assign(fs, gs[0].key, gs[0].val);
      assert UniqueKeys(gs[1..]);
      SpreadLookup(fs', gs[1..], k);
      AssignLookup(fs, gs[0].key, gs[0].val, k);
      assert Keys(gs) == [gs[0].key] + Keys(gs[1..]);
      if k == gs[0].key {
        forall j | 0 <= j < |gs[1..]| ensures Keys(gs[1..])[j] != k {
          assert gs[1..][j] == gs[j + 1];
        }
      }
    }
  }

  /** Spreading keeps the keys of `fs` first, in their order, and keeps keys distinct. */
  lemma {:induction false} SpreadKeys(fs: seq<Field>, gs: seq<Field>)
    ensures |Spread(fs, gs)| >= |fs|
    ensures Keys(Spread(fs, gs))[..|fs|] == Keys(fs)
    ensures UniqueKeys(fs) ==> UniqueKeys(Spread(fs, gs))
    decreases |gs|
  {
    if gs != [] {
      var fs' := Assign(fs, gs[0].key, gs[0].val);
      AssignKeys(fs, gs[0].key, gs[0].val);
      if UniqueKeys(fs) {
        AssignUnique(fs, gs[0].key, gs[0].val);
      }
      SpreadKeys(fs', gs[1..]);
      assert |Keys(fs')| >= |Keys(fs)|;
      assert Keys(fs')[..|fs|] == Keys(fs);
    }
  }

  /**
   * `v[k]` on a value that is neither `null` nor `undefined`, for a property
   * name `k`: an object's field, or the `length` of an array or string.
   * Members of prototypes and index reads through a property name are not
   * modelled; the core indexes arrays directly.
   */
  function Get(v: Value, k: string): Value
    requires !Nullish(v)
  {
    match v
    case Obj(fs) => Lookup(fs, k)
    case Arr(xs) => if k == "length" then Num(|xs|) else Undefined
    case Str(s) => if k == "length" then Num(|s|) else Undefined
    case _ => Undefined
  }

  function ReadError(v: Value, k: string): Thrown
    requires Nullish(v)
  {
    Thrown("Cannot read properties of " + (if v.Null? then "null" else "undefined") + " (reading '" + k + "')")
  }

  /** `v[k]`, which throws a TypeError when `v` is `null` or `undefined`. */
  function Read(v: Value, k: string): (r: Result<Value, Thrown>)
    ensures r.Err? <==> Nullish(v)
    ensures r.Ok? ==> r.value == Get(v, k)
  {
    if Nullish(v) then Err(ReadError(v, k)) else Ok(Get(v, k))
  }

  /** `v?.[k]`: `undefined` on a `null` or `undefined` receiver. */
  function OptGet(v: Value, k: string): Value {
    if Nullish(v) then Undefined else Get(v, k)
  }

  /** The own enumerable fields that `Object.keys` lists and object spread copies. */
  function OwnFields(v: Value): seq<Field> {
    match v
    case Obj(fs) => fs
    case Arr(xs) => seq(|xs|, i requires 0 <= i < |xs| => Field(NatText(i), xs[i]))
    case Str(s) => seq(|s|, i requires 0 <= i < |s| => Field(NatText(i), Str([s[i]])))
    case _ => []
  }

  /** `Object.keys(v)`, which throws on `null` and `undefined`. */
  function ObjectKeys(v: Value): (r: Result<seq<string>, Thrown>)
    ensures r.Err? <==> Nullish(v)
    ensures v.Obj? ==> r == Ok(Keys(v.fields))
  {
    if Nullish(v) then Err(Thrown("Cannot convert undefined or null to object"))
    else Ok(Keys(OwnFields(v)))
  }

  /** `String(v)`, as template literals and `Array.prototype.join` render a value. */
  function ToText(v: Value): string
    decreases v, 0
  {
    match v
    case Undefined => "undefined"
    case Null => "null"
    case Bool(b) => if b then "true" else "false"
    case Num(n) => IntText(n)
    case Str(s) => s
    case Arr(xs) => Join(seq(|xs|, i requires 0 <= i < |xs| => ElementText(xs[i])), ",")
    case Obj(_) => "[object Object]"
  }

  /** An array element as `join` renders it: `null` and `undefined` become empty. */
  function ElementText(v: Value): string
    decreases v, 1
  {
    if Nullish(v) then "" else ToText(v)
  }

  /** `a === b`; distinct arrays and objects are never identical. */
  predicate StrictEq(a: Value, b: Value) {
    match (a, b)
    case (Undefined, Undefined) => true
    case (Null, Null) => true
    case (Bool(x), Bool(y)) => x == y
    case (Num(x), Num(y)) => x == y
    case (Str(x), Str(y)) => x == y
    case _ => false
  }

  /** A string-keyed object literal. */
  function Object(fs: seq<Field>): Value {
    Obj(fs)
  }
}

/**
 * The JSON values a paper record holds, the record itself as an ordered
 * dictionary, and the Python conversions the backend applies to them:
 * `str()`, `json.dumps()`, `int()` and the schema's `detect_type`.
 *
 * `str()` and `json.dumps()` are written out for every kind of value, but
 * without the escaping of quotes, backslashes and control characters; a
 * float carries the text Python prints for it, which the model does not
 * compute.
 */
module Values {
  import opened Wrappers
  import opened Text

  datatype Value =
    | Null
    | Bool(b: bool)
    | Int(i: int)
    | Float(x: real, text: FloatText)
    | Str(s: string)
    | List(items: seq<Value>)
    | Obj(fields: seq<(string, Value)>)

  /** What Python prints for a float: never empty. */
  type FloatText = s: string | s != [] witness "0.0"

  // ---------------------------------------------------------------------------
  // Records: Python dicts, which remember the order their keys were added in

  datatype Dict = Dict(keys: seq<string>, entries: map<string, Value>)

  ghost predicate WellFormed(d: Dict) {
    && (forall i, j :: 0 <= i < j < |d.keys| ==> d.keys[i] != d.keys[j])
    && (forall i :: 0 <= i < |d.keys| ==> d.keys[i] in d.entries)
    && (forall k {:trigger k in d.keys} :: k in d.entries ==> k in d.keys)
  }

  /** A dict: its keys in insertion order, each once, and the value of each. */
  type Record = d: Dict | WellFormed(d) witness Dict([], map[])

  const EmptyDict: Dict := Dict([], map[])

  /** `record.get(key)`: a missing key reads as `None`. */
  function Get(d: Dict, key: string): Value {
    if key in d.entries then d.entries[key] else Null
  }

  /** `record[key] = v`: an existing key keeps its place, a new one goes last. */
  function Set(d: Dict, key: string, v: Value): Dict {
    Dict(if key in d.entries then d.keys else d.keys + [key], d.entries[key := v])
  }

  /** Setting a key keeps a dict well formed. */
  lemma SetWellFormed(d: Dict, key: string, v: Value)
    requires WellFormed(d)
    ensures WellFormed(Set(d, key, v))
  {
  }

  /** The helper column that holds the searchable text of a list or dict field. */
  function SearchKey(key: string): string {
    key + "_search"
  }

  predicate EndsWithSearch(k: string) {
    |k| >= 7 && k[|k| - 7..] == "_search"
  }

  /** A helper column's name ends in `_search`. */
  lemma SearchKeyEnds(key: string)
    ensures EndsWithSearch(SearchKey(key))
  {
    assert SearchKey(key)[|key|..] == "_search";
  }

  /** Different fields have different helper columns. */
  lemma SearchKeyInjective(a: string, b: string)
    requires SearchKey(a) == SearchKey(b)
    ensures a == b
  {
    assert a == SearchKey(a)[..|a|] && b == SearchKey(b)[..|b|];
  }

  /** The record as a nested JSON object, keys in order. */
  function AsObj(d: Record): (v: Value)
    ensures v.Obj? && |v.fields| == |d.keys|
    ensures forall i :: 0 <= i < |d.keys| ==> v.fields[i] == (d.keys[i], d.entries[d.keys[i]])
  {
    Obj(FieldsOf(d, |d.keys|))
  }

  /** The first `n` entries of the record, in order. */
  function FieldsOf(d: Record, n: nat): (fields: seq<(string, Value)>)
    requires n <= |d.keys|
    ensures |fields| == n
    ensures forall i :: 0 <= i < n ==> fields[i] == (d.keys[i], d.entries[d.keys[i]])
  {
    if n == 0 then [] else FieldsOf(d, n - 1) + [(d.keys[n - 1], d.entries[d.keys[n - 1]])]
  }

  // ---------------------------------------------------------------------------
  // str(), repr() and json.dumps()

  /** `repr(v)`: how Python prints a value nested in a list or dict. */
  function Repr(v: Value): string
    decreases v, 1
  {
    match v
    case Null => "None"
    case Bool(b) => if b then "True" else "False"
    case Int(i) => IntToDecimal(i)
    case Float(_, text) => text
    case Str(s) => "'" + s + "'"
    case List(items) => "[" + ReprItems(v, items) + "]"
    case Obj(fields) => "{" + ReprFields(v, fields) + "}"
  }

  /** The items of a list, each as its `repr`, separated by `", "`. */
  function ReprItems(ghost parent: Value, items: seq<Value>): string
    requires forall k :: 0 <= k < |items| ==> items[k] < parent
    decreases parent, 0, |items|
  {
    if items == [] then ""
    else if |items| == 1 then Repr(items[0])
    else Repr(items[0]) + ", " + ReprItems(parent, items[1..])
  }

  /** The entries of a dict as `'key': repr(value)`, separated by `", "`. */
  function ReprFields(ghost parent: Value, fields: seq<(string, Value)>): string
    requires forall k :: 0 <= k < |fields| ==> fields[k].1 < parent
    decreases parent, 0, |fields|
  {
    if fields == [] then ""
    else
      var entry := "'" + fields[0].0 + "': " + Repr(fields[0].1);
      if |fields| == 1 then entry else entry + ", " + ReprFields(parent, fields[1..])
  }

  /** `str(v)`: a string is itself, anything else is its `repr`. */
  function PyStr(v: Value): string {
    if v.Str? then v.s else Repr(v)
  }

  /** `json.dumps(v, ensure_ascii=False)` with the default separators. */
  function Dumps(v: Value): string
    decreases v, 1
  {
    match v
    case Null => "null"
    case Bool(b) => if b then "true" else "false"
    case Int(i) => IntToDecimal(i)
    case Float(_, text) => text
    case Str(s) => "\"" + s + "\""
    case List(items) => "[" + DumpsItems(v, items) + "]"
    case Obj(fields) => "{" + DumpsFields(v, fields) + "}"
  }

  /** The items of a JSON array, separated by `", "`. */
  function DumpsItems(ghost parent: Value, items: seq<Value>): string
    requires forall k :: 0 <= k < |items| ==> items[k] < parent
    decreases parent, 0, |items|
  {
    if items == [] then ""
    else if |items| == 1 then Dumps(items[0])
    else Dumps(items[0]) + ", " + DumpsItems(parent, items[1..])
  }

  /** The members of a JSON object as `"key": value`, separated by `", "`. */
  function DumpsFields(ghost parent: Value, fields: seq<(string, Value)>): string
    requires forall k :: 0 <= k < |fields| ==> fields[k].1 < parent
    decreases parent, 0, |fields|
  {
    if fields == [] then ""
    else
      var entry := "\"" + fields[0].0 + "\": " + Dumps(fields[0].1);
      if |fields| == 1 then entry else entry + ", " + DumpsFields(parent, fields[1..])
  }

  /** `repr` never prints nothing; strings are quoted, lists bracketed and dicts braced. */
  lemma ReprShape(v: Value)
    ensures Repr(v) != ""
    ensures v.Str? ==> Repr(v)[0] == '\'' && Repr(v)[|Repr(v)| - 1] == '\''
    ensures v.List? ==> Repr(v)[0] == '[' && Repr(v)[|Repr(v)| - 1] == ']'
    ensures v.Obj? ==> Repr(v)[0] == '{' && Repr(v)[|Repr(v)| - 1] == '}'
  {
  }

  /** JSON text is never empty; strings are double-quoted, arrays bracketed and objects braced. */
  lemma DumpsShape(v: Value)
    ensures Dumps(v) != ""
    ensures v.Str? ==> Dumps(v)[0] == '"' && Dumps(v)[|Dumps(v)| - 1] == '"'
    ensures v.List? ==> Dumps(v)[0] == '[' && Dumps(v)[|Dumps(v)| - 1] == ']'
    ensures v.Obj? ==> Dumps(v)[0] == '{' && Dumps(v)[|Dumps(v)| - 1] == '}'
  {
  }

  /** Only the empty string prints as nothing. */
  lemma PyStrEmpty(v: Value)
    ensures PyStr(v) == "" <==> v == Str("")
  {
  }

  /** The items a `" | "`-join keeps: all but `None` and `""`. */
  predicate Searchable(v: Value) {
    v != Null && v != Str("")
  }

  /**
   * The items of a list that its `" | "`-joined text keeps, as `str()`: the
   * strings are exactly those of the items other than `None` and `""`, and
   * none is empty.
   */
  function SearchableItems(items: seq<Value>): (r: seq<string>)
    ensures |r| <= |items|
    ensures forall k :: 0 <= k < |r| ==> r[k] != ""
    decreases |items|
  {
    if items == [] then []
    else
      var rest := SearchableItems(items[1..]);
      if Searchable(items[0]) then PyStrEmpty(items[0]); [PyStr(items[0])] + rest else rest
  }

  /** The kept strings are exactly those of the items other than `None` and `""`. */
  lemma {:induction false} SearchableItemsMembers(items: seq<Value>, x: string)
    ensures x in SearchableItems(items) <==> exists k :: 0 <= k < |items| && Searchable(items[k]) && PyStr(items[k]) == x
    decreases |items|
  {
    if items != [] {
      SearchableItemsMembers(items[1..], x);
      assert forall k :: 0 <= k < |items| - 1 ==> items[1..][k] == items[k + 1];
    }
  }

  /**
   * The kept items keep their order and their number: the strings kept from
   * two lists one after the other are those kept from each, in turn.
   */
  lemma {:induction false} SearchableItemsAppend(a: seq<Value>, b: seq<Value>)
    ensures SearchableItems(a + b) == SearchableItems(a) + SearchableItems(b)
    decreases |a|
  {
    if a != [] {
      var rest := a[1..];
      assert (a + b)[0] == a[0];
      assert (a + b)[1..] == rest + b;
      SearchableItemsAppend(rest, b);
      var head := SearchableItems([a[0]]);
      SearchableItemsOne(a[0]);
      assert SearchableItems(a) == head + SearchableItems(rest);
      var sr, sb := SearchableItems(rest), SearchableItems(b);
      assert head + (sr + sb) == (head + sr) + sb;
    } else {
      assert a + b == b;
    }
  }

  /** The empty list has no searchable items, and a one-item list has at most its own. */
  lemma SearchableItemsOne(v: Value)
    ensures SearchableItems([]) == []
    ensures SearchableItems([v]) == if Searchable(v) then [PyStr(v)] else []
  {
    assert [v][1..] == [];
  }

  /**
   * `" | ".join(str(item) for item in items if item not in (None, ""))`,
   * written alike in the index builder and in the search helpers.
   */
  function JoinItems(items: seq<Value>): string {
    Join(" | ", SearchableItems(items))
  }

  /** The join is empty exactly when no item survives the filter. */
  lemma {:induction false} JoinItemsEmpty(items: seq<Value>)
    ensures JoinItems(items) == "" <==> forall k :: 0 <= k < |items| ==> items[k] == Null || items[k] == Str("")
    decreases |items|
  {
    if items != [] {
      JoinItemsEmpty(items[1..]);
      var parts := SearchableItems(items);
      if !(items[0] == Null || items[0] == Str("")) {
        assert parts[0] != "";
        assert |Join(" | ", parts)| >= |parts[0]|;
      } else {
        assert forall k :: 1 <= k < |items| ==> items[1..][k - 1] == items[k];
      }
    }
  }

  // ---------------------------------------------------------------------------
  // int()

  datatype IntError = NotANumber(v: Value)

  /** `int(v)`: integers unchanged, booleans 0/1, floats truncated toward zero, decimal strings parsed. */
  function PyInt(v: Value): (r: Result<int, IntError>)
    ensures v.Int? ==> r == Success(v.i)
    ensures (v.Null? || v.List? || v.Obj?) ==> r.Failure?
  {
    match v
    case Int(i) => Success(i)
    case Bool(b) => Success(if b then 1 else 0)
    case Float(x, _) => Success(if x >= 0.0 then x.Floor else -((-x).Floor))
    case Str(s) =>
      (match ParseInt(s)
       case Some(i) => Success(i)
       case None => Failure(NotANumber(v)))
    case _ => Failure(NotANumber(v))
  }

  /**
   * The other cases of `int()`: a bool is 0 or 1, a float is truncated
   * toward zero, and a string converts exactly when it parses as an integer.
   */
  lemma PyIntCases(v: Value)
    ensures v.Bool? ==> PyInt(v) == Success(if v.b then 1 else 0)
    ensures v.Float? && v.x >= 0.0 ==> PyInt(v).Success? && 0 <= PyInt(v).value && PyInt(v).value as real <= v.x < PyInt(v).value as real + 1.0
    ensures v.Float? && v.x < 0.0 ==> PyInt(v).Success? && PyInt(v).value <= 0 && PyInt(v).value as real - 1.0 < v.x <= PyInt(v).value as real
    ensures v.Str? ==> (PyInt(v).Success? <==> ParseInt(v.s).Some?) && (PyInt(v).Success? ==> PyInt(v).value == ParseInt(v.s).value)
  {
  }

  // ---------------------------------------------------------------------------
  // detect_type

  const TypeNames: set<string> := {"boolean", "integer", "float", "object", "array", "string"}

  /** The schema's name for the type of a value; a bool is reported before it could count as an int. */
  function DetectType(v: Value): (t: string)
    ensures t in TypeNames && t != "mixed"
    ensures v.Bool? <==> t == "boolean"
    ensures v.Int? <==> t == "integer"
    ensures v.Float? <==> t == "float"
    ensures v.Obj? <==> t == "object"
    ensures v.List? <==> t == "array"
    ensures (v.Str? || v.Null?) <==> t == "string"
  {
    match v
    case Bool(_) => "boolean"
    case Int(_) => "integer"
    case Float(_, _) => "float"
    case Obj(_) => "object"
    case List(_) => "array"
    case _ => "string"
  }
}

/**
 * The offline index builder's flattening of paper records into table rows:
 * lists and dicts become JSON text, each list also gets a `<key>_search`
 * column holding its items joined by " | ", and all searchable text is
 * bundled into a `search_blob` column for the full-text index.
 */
module BuildIndex {
  import opened Wrappers
  import opened Text
  import opened Values

  datatype BuildError =
    | BadId(cause: IntError)   // `int(value)` raised on the record's id
    | MissingId                // the row has no id, or a `None` one

  /** What a field other than the id is stored as: lists and dicts as JSON text, anything else as it is. */
  function StoredValue(v: Value): Value {
    if v.List? || v.Obj? then Str(Dumps(v)) else v
  }

  /** The id column: `int(value)`, or `None` when the id is `None`. */
  function IdColumn(v: Value): Result<Value, BuildError> {
    if v == Null then Success(Null)
    else
      match PyInt(v)
      case Success(i) => Success(Int(i))
      case Failure(e) => Failure(BadId(e))
  }

  /** The text fragments one field adds to the search blob. */
  function FieldFragments(key: string, v: Value): seq<string> {
    if key == "id" || v == Null then []
    else if v.List? then (if JoinItems(v.items) != "" then [JoinItems(v.items)] else [])
    else if v.Obj? then [Dumps(v)]
    else [PyStr(v)]
  }

  /** The fragments of the first `n` fields, in field order. */
  function Fragments(record: Record, n: nat): seq<string>
    requires n <= |record.keys|
  {
    if n == 0 then []
    else Fragments(record, n - 1) + FieldFragments(record.keys[n - 1], record.entries[record.keys[n - 1]])
  }

  /** The fragments that are not empty. */
  function NonEmpty(fragments: seq<string>): (r: seq<string>)
    ensures forall k :: 0 <= k < |r| ==> r[k] != ""
  {
    if fragments == [] then []
    else (if fragments[0] != "" then [fragments[0]] else []) + NonEmpty(fragments[1..])
  }

  /** The id column of a record (`None` when it has no id), or the error converting its id raises. */
  function RecordId(record: Record): Result<Value, BuildError> {
    IdColumn(Get(record, "id"))
  }

  /** The value the column of field `key` holds; `id` is the record's converted id. */
  function Cell(key: string, value: Value, id: Value): Value {
    if key == "id" then id else StoredValue(value)
  }

  /** A list field other than the id also writes its `" | "`-joined items into `<key>_search`. */
  function WithHelper(row: Dict, key: string, value: Value): Dict {
    if key != "id" && value.List? then Set(row, SearchKey(key), Str(JoinItems(value.items))) else row
  }

  /** The columns one field writes into the row. */
  function FieldColumns(row: Dict, key: string, value: Value, id: Value): Dict {
    WithHelper(Set(row, key, Cell(key, value, id)), key, value)
  }

  /** The row after the first `n` fields. */
  function Columns(record: Record, n: nat, id: Value): Dict
    requires n <= |record.keys|
  {
    if n == 0 then EmptyDict
    else FieldColumns(Columns(record, n - 1, id), record.keys[n - 1], record.entries[record.keys[n - 1]], id)
  }

  /**
   * The row `normalise_record` builds, or the error it raises: converting the
   * id is the only step that can fail, and the row is every field's columns
   * in field order, then `search_blob` and `raw_json`.
   */
  function Normalised(record: Record): Result<Dict, BuildError> {
    match RecordId(record)
    case Failure(e) => Failure(e)
    case Success(id) => Success(Row(record, id))
  }

  /** The row built around the converted id `id`: the field columns, then `search_blob` and `raw_json`. */
  function Row(record: Record, id: Value): Dict {
    var row := Columns(record, |record.keys|, id);
    var row := Set(row, "search_blob", Str(Join("\n", NonEmpty(Fragments(record, |record.keys|)))));
    Set(row, "raw_json", Str(Dumps(AsObj(record))))
  }

  /** The converted id, or `None` while no conversion has succeeded. */
  function IdOrNull(record: Record): Value {
    if RecordId(record).Success? then RecordId(record).value else Null
  }

  /** `normalise_record`: the field loop, then the blob and the raw JSON. */
  method NormaliseRecord(record: Record) returns (res: Result<Dict, BuildError>)
    ensures res == Normalised(record)
  {
    var row := EmptyDict;
    var fragments: seq<string> := [];
    for i := 0 to |record.keys|
      invariant row == Columns(record, i, IdOrNull(record))
      invariant fragments == Fragments(record, i)
      invariant IdAmong(record, i) ==> RecordId(record).Success?
    {
      var key := record.keys[i];
      var value := record.entries[key];
      if key == "id" {
        var id := IdColumn(value);
        if id.Failure? {
          return Failure(id.error);
        }
        row := Set(row, key, id.value);
      } else {
        row, fragments := AddField(row, fragments, key, value);
      }
    }
    IdAmongIff(record, |record.keys|);
    assert record.keys[..|record.keys|] == record.keys;
    assert RecordId(record).Success?;
    row := Set(row, "search_blob", Str(Join("\n", NonEmpty(fragments))));
    row := Set(row, "raw_json", Str(Dumps(AsObj(record))));
    return Success(row);
  }

  /** One iteration of the field loop for a field other than the id: its columns and its blob fragments. */
  method AddField(row: Dict, fragments: seq<string>, key: string, value: Value)
    returns (row': Dict, fragments': seq<string>)
    requires key != "id"
    ensures forall id :: row' == FieldColumns(row, key, value, id)
    ensures fragments' == fragments + FieldFragments(key, value)
  {
    row' := row;
    fragments' := fragments;
    if value == Null {
      row' := Set(row', key, Null);
    } else if value.List? {
      row' := Set(row', key, Str(Dumps(value)));
      var joined := JoinItems(value.items);
      row' := Set(row', SearchKey(key), Str(joined));
      if joined != "" {
        fragments' := fragments' + [joined];
      } else {
        assert fragments' + [] == fragments';
      }
    } else if value.Obj? {
      row' := Set(row', key, Str(Dumps(value)));
      fragments' := fragments' + [Dumps(value)];
    } else {
      row' := Set(row', key, value);
      fragments' := fragments' + [PyStr(value)];
    }
  }

  // ---------------------------------------------------------------------------
  // What a normalised row holds

  /** The field `id` is among the first `n` fields. */
  predicate IdAmong(record: Record, n: nat)
    requires n <= |record.keys|
  {
    n > 0 && (record.keys[n - 1] == "id" || IdAmong(record, n - 1))
  }

  lemma {:induction false} IdAmongIff(record: Record, n: nat)
    requires n <= |record.keys|
    ensures IdAmong(record, n) <==> "id" in record.keys[..n]
  {
    if n > 0 {
      IdAmongIff(record, n - 1);
      assert record.keys[..n] == record.keys[..n - 1] + [record.keys[n - 1]];
    }
  }

  /** The row has an id column once the id field has been seen, and it holds the converted id. */
  lemma {:induction false} ColumnsId(record: Record, n: nat, id: Value)
    requires n <= |record.keys|
    ensures "id" in Columns(record, n, id).entries <==> IdAmong(record, n)
    ensures IdAmong(record, n) ==> Columns(record, n, id).entries["id"] == id
  {
    if n > 0 {
      ColumnsId(record, n - 1, id);
      var key := record.keys[n - 1];
      FieldColumnsId(Columns(record, n - 1, id), key, record.entries[key], id);
    }
  }

  /** A field writes the id column exactly when it is the id, and writes the converted id there. */
  lemma FieldColumnsId(row: Dict, key: string, value: Value, id: Value)
    ensures "id" in FieldColumns(row, key, value, id).entries <==> "id" in row.entries || key == "id"
    ensures key == "id" ==> FieldColumns(row, key, value, id).entries["id"] == id
    ensures key != "id" && "id" in row.entries ==> FieldColumns(row, key, value, id).entries["id"] == row.entries["id"]
  {
    if key != "id" && value.List? {
      SearchKeyEnds(key);
    }
  }

  /**
   * A record normalises unless its id is present, not `None`, and not
   * convertible by `int()`; the id column then holds `int(id)`, or `None`,
   * and a record without an id gives a row without one.
   */
  lemma NormalisedId(record: Record)
    ensures Normalised(record).Failure? <==>
      "id" in record.entries && record.entries["id"] != Null && PyInt(record.entries["id"]).Failure?
    ensures Normalised(record).Failure? ==> Normalised(record).error == BadId(PyInt(record.entries["id"]).error)
    ensures Normalised(record).Success? ==>
      ("id" in Normalised(record).value.entries <==> "id" in record.entries)
    ensures Normalised(record).Success? && "id" in record.entries ==>
      Normalised(record).value.entries["id"] ==
        (if record.entries["id"] == Null then Null else Int(PyInt(record.entries["id"]).value))
  {
    var n := |record.keys|;
    if RecordId(record).Success? {
      ColumnsId(record, n, RecordId(record).value);
    }
    IdAmongIff(record, n);
    assert record.keys[..n] == record.keys;
  }

  /**
   * The search blob is the newline-join of the non-empty fragments of all
   * fields in field order, and the raw JSON of the record is always kept.
   */
  lemma NormalisedBlob(record: Record)
    requires Normalised(record).Success?
    ensures Normalised(record).value.entries["search_blob"] ==
      Str(Join("\n", NonEmpty(Fragments(record, |record.keys|))))
    ensures Normalised(record).value.entries["raw_json"] == Str(Dumps(AsObj(record)))
  {
  }

  /** The fragments of the fields in the order given, keys of `record` only. */
  function FragmentsOver(record: Record, ks: seq<string>): seq<string>
    requires forall k :: k in ks ==> k in record.entries
  {
    if ks == [] then []
    else FragmentsOver(record, ks[..|ks| - 1]) + FieldFragments(ks[|ks| - 1], record.entries[ks[|ks| - 1]])
  }

  /** The keys in order, without `key`. */
  function Without(ks: seq<string>, key: string): (r: seq<string>)
    ensures forall k :: k in r <==> k in ks && k != key
  {
    if ks == [] then []
    else Without(ks[..|ks| - 1], key) + (if ks[|ks| - 1] == key then [] else [ks[|ks| - 1]])
  }

  lemma {:induction false} FragmentsAsOver(record: Record, n: nat)
    requires n <= |record.keys|
    ensures Fragments(record, n) == FragmentsOver(record, record.keys[..n])
  {
    if n > 0 {
      FragmentsAsOver(record, n - 1);
      assert record.keys[..n][..n - 1] == record.keys[..n - 1];
    }
  }

  lemma {:induction false} FragmentsWithoutId(record: Record, ks: seq<string>)
    requires forall k :: k in ks ==> k in record.entries
    ensures FragmentsOver(record, ks) == FragmentsOver(record, Without(ks, "id"))
    decreases |ks|
  {
    if ks != [] {
      var init := ks[..|ks| - 1];
      FragmentsWithoutId(record, init);
      var last := ks[|ks| - 1];
      if last == "id" {
        assert Without(ks, "id") == Without(init, "id");
      } else {
        var w := Without(ks, "id");
        assert w == Without(init, "id") + [last];
        assert w[..|w| - 1] == Without(init, "id");
      }
    }
  }

  /** The id adds nothing to the search blob: the fragments are those of the other fields, in order. */
  lemma BlobIgnoresId(record: Record)
    ensures Fragments(record, |record.keys|) == FragmentsOver(record, Without(record.keys, "id"))
  {
    FragmentsAsOver(record, |record.keys|);
    assert record.keys[..|record.keys|] == record.keys;
    FragmentsWithoutId(record, record.keys);
  }

  /** No field name of the record ends in `_search`, so no helper column overwrites a field. */
  predicate NoSearchKeys(record: Record) {
    forall k :: k in record.entries ==> !EndsWithSearch(k)
  }

  /** The helper column a field adds: `<key>_search` for a list field other than the id. */
  function Helper(key: string, value: Value): set<string> {
    if key != "id" && value.List? then {SearchKey(key)} else {}
  }

  /** One field sets its own column to its cell, and its helper column if it has one; no other column changes. */
  lemma FieldColumnsAt(row: Dict, key: string, value: Value, id: Value, k: string)
    ensures var r := FieldColumns(row, key, value, id);
      && (k in r.entries <==> k in row.entries || k == key || k in Helper(key, value))
      && (k == key ==> r.entries[k] == Cell(key, value, id))
      && (k != key && k in Helper(key, value) ==> r.entries[k] == Str(JoinItems(value.items)))
      && (k in row.entries && k != key && k !in Helper(key, value) ==> r.entries[k] == row.entries[k])
  {
    assert |SearchKey(key)| == |key| + 7;
  }

  /** The first `n` field names. */
  function KeysAmong(record: Record, n: nat): set<string>
    requires n <= |record.keys|
  {
    if n == 0 then {} else KeysAmong(record, n - 1) + {record.keys[n - 1]}
  }

  /** The helper columns of the first `n` fields. */
  function ListHelpersAmong(record: Record, n: nat): set<string>
    requires n <= |record.keys|
  {
    if n == 0 then {} else ListHelpersAmong(record, n - 1) + Helper(record.keys[n - 1], record.entries[record.keys[n - 1]])
  }

  /** The row's columns are the fields seen so far and their helpers. */
  lemma {:induction false} ColumnsKeys(record: Record, n: nat, id: Value)
    requires n <= |record.keys|
    ensures forall k :: k in Columns(record, n, id).entries <==> k in KeysAmong(record, n) || k in ListHelpersAmong(record, n)
  {
    if n > 0 {
      ColumnsKeys(record, n - 1, id);
      var key := record.keys[n - 1];
      forall k {
        FieldColumnsAt(Columns(record, n - 1, id), key, record.entries[key], id, k);
      }
    }
  }

  /** Without `_search` field names, a helper column never lands on a field's column or on another helper. */
  lemma HelperApart(record: Record, i: nat, j: nat)
    requires NoSearchKeys(record)
    requires i < |record.keys| && j < |record.keys| && i != j
    ensures record.keys[i] !in Helper(record.keys[j], record.entries[record.keys[j]])
    ensures SearchKey(record.keys[i]) != SearchKey(record.keys[j])
  {
    SearchKeyEnds(record.keys[j]);
    assert !EndsWithSearch(record.keys[i]);
    if SearchKey(record.keys[i]) == SearchKey(record.keys[j]) {
      SearchKeyInjective(record.keys[i], record.keys[j]);
    }
  }

  /** Each field other than the id holds its stored value. */
  lemma {:induction false} ColumnsCells(record: Record, n: nat, id: Value)
    requires n <= |record.keys|
    requires NoSearchKeys(record)
    ensures forall j :: 0 <= j < n ==>
      record.keys[j] in Columns(record, n, id).entries &&
      Columns(record, n, id).entries[record.keys[j]] == Cell(record.keys[j], record.entries[record.keys[j]], id)
  {
    if n > 0 {
      ColumnsCells(record, n - 1, id);
      var key := record.keys[n - 1];
      var value := record.entries[key];
      var prev := Columns(record, n - 1, id);
      var cur := Columns(record, n, id);
      assert cur == FieldColumns(prev, key, value, id);
      forall j | 0 <= j < n
        ensures record.keys[j] in cur.entries
        ensures cur.entries[record.keys[j]] == Cell(record.keys[j], record.entries[record.keys[j]], id)
      {
        var k := record.keys[j];
        FieldColumnsAt(prev, key, value, id, k);
        if j < n - 1 {
          HelperApart(record, j, n - 1);
          assert k in prev.entries && prev.entries[k] == Cell(k, record.entries[k], id);
        }
      }
    }
  }

  /** Each list field other than the id has its helper column holding the `" | "`-join of its items. */
  lemma {:induction false} ColumnsHelpers(record: Record, n: nat, id: Value)
    requires n <= |record.keys|
    requires NoSearchKeys(record)
    ensures forall j :: 0 <= j < n && record.keys[j] != "id" && record.entries[record.keys[j]].List? ==>
      SearchKey(record.keys[j]) in Columns(record, n, id).entries &&
      Columns(record, n, id).entries[SearchKey(record.keys[j])] == Str(JoinItems(record.entries[record.keys[j]].items))
  {
    if n > 0 {
      ColumnsHelpers(record, n - 1, id);
      var key := record.keys[n - 1];
      var value := record.entries[key];
      var prev := Columns(record, n - 1, id);
      var cur := Columns(record, n, id);
      assert cur == FieldColumns(prev, key, value, id);
      forall j | 0 <= j < n && record.keys[j] != "id" && record.entries[record.keys[j]].List?
        ensures SearchKey(record.keys[j]) in cur.entries
        ensures cur.entries[SearchKey(record.keys[j])] == Str(JoinItems(record.entries[record.keys[j]].items))
      {
        var k := SearchKey(record.keys[j]);
        FieldColumnsAt(prev, key, value, id, k);
        SearchKeyEnds(record.keys[j]);
        if j < n - 1 {
          HelperApart(record, n - 1, j);
          HelperApart(record, j, n - 1);
          assert k != key && k !in Helper(key, value);
          assert k in prev.entries && prev.entries[k] == Str(JoinItems(record.entries[record.keys[j]].items));
        } else {
          assert !EndsWithSearch(key);
          assert k != key && k in Helper(key, value);
        }
      }
    }
  }

  lemma {:induction false} KeysAmongIff(record: Record, n: nat, k: string)
    requires n <= |record.keys|
    ensures k in KeysAmong(record, n) <==> exists j :: 0 <= j < n && record.keys[j] == k
  {
    if n > 0 {
      KeysAmongIff(record, n - 1, k);
    }
  }

  lemma {:induction false} ListHelpersAmongHas(record: Record, n: nat, j: nat)
    requires j < n <= |record.keys|
    ensures Helper(record.keys[j], record.entries[record.keys[j]]) <= ListHelpersAmong(record, n)
  {
    if j < n - 1 {
      ListHelpersAmongHas(record, n - 1, j);
    }
  }

  /** The helper columns of the record's list fields, other than the id. */
  ghost function ListHelpers(record: Record): set<string> {
    set k | k in record.entries && k != "id" && record.entries[k].List? :: SearchKey(k)
  }

  /** The field names seen after the last field are the record's keys. */
  lemma KeysAmongAll(record: Record)
    ensures forall k :: k in KeysAmong(record, |record.keys|) <==> k in record.entries
  {
    forall k ensures k in KeysAmong(record, |record.keys|) <==> k in record.entries {
      KeysAmongIff(record, |record.keys|, k);
      if k in record.entries {
        assert k in record.keys;
      }
    }
  }

  /** The helper columns added after the last field are those of the list fields other than the id. */
  lemma ListHelpersAmongAll(record: Record)
    ensures ListHelpersAmong(record, |record.keys|) == ListHelpers(record)
  {
    var n := |record.keys|;
    ListHelpersAmongListed(record, n);
    forall k | k in record.entries && k != "id" && record.entries[k].List?
      ensures SearchKey(k) in ListHelpersAmong(record, n)
    {
      assert k in record.keys;
      var j :| 0 <= j < n && record.keys[j] == k;
      ListHelpersAmongHas(record, n, j);
    }
  }

  /**
   * When no field name ends in `_search`, a row has a column for every field,
   * one `<key>_search` column for each list field other than the id, and
   * `search_blob` and `raw_json`; it has no other column.
   */
  lemma RowColumns(record: Record, id: Value)
    requires NoSearchKeys(record)
    ensures Row(record, id).entries.Keys ==
      record.entries.Keys + ListHelpers(record) + {"search_blob", "raw_json"}
  {
    ColumnsKeys(record, |record.keys|, id);
    KeysAmongAll(record);
    ListHelpersAmongAll(record);
  }

  /** After the last field, each field's column holds its cell. */
  lemma CellsByKey(record: Record, id: Value)
    requires NoSearchKeys(record)
    ensures forall k :: k in record.entries ==>
      k in Columns(record, |record.keys|, id).entries &&
      Columns(record, |record.keys|, id).entries[k] == Cell(k, record.entries[k], id)
  {
    var n := |record.keys|;
    ColumnsCells(record, n, id);
    forall k | k in record.entries
      ensures k in Columns(record, n, id).entries && Columns(record, n, id).entries[k] == Cell(k, record.entries[k], id)
    {
      assert k in record.keys;
      var j :| 0 <= j < n && record.keys[j] == k;
    }
  }

  /**
   * Every field other than the id keeps its value, lists and dicts as JSON
   * text (unless the field is itself called `search_blob` or `raw_json`).
   */
  lemma RowCells(record: Record, id: Value)
    requires NoSearchKeys(record)
    ensures forall k :: k in record.entries && k !in {"id", "search_blob", "raw_json"} ==>
      k in Row(record, id).entries && Row(record, id).entries[k] == StoredValue(record.entries[k])
  {
    CellsByKey(record, id);
  }

  /** After the last field, each list field other than the id has its helper column. */
  lemma HelpersByKey(record: Record, id: Value)
    requires NoSearchKeys(record)
    ensures forall k :: k in record.entries && k != "id" && record.entries[k].List? ==>
      SearchKey(k) in Columns(record, |record.keys|, id).entries &&
      Columns(record, |record.keys|, id).entries[SearchKey(k)] == Str(JoinItems(record.entries[k].items))
  {
    var n := |record.keys|;
    ColumnsHelpers(record, n, id);
    forall k | k in record.entries && k != "id" && record.entries[k].List?
      ensures SearchKey(k) in Columns(record, n, id).entries
      ensures Columns(record, n, id).entries[SearchKey(k)] == Str(JoinItems(record.entries[k].items))
    {
      assert k in record.keys;
      var j :| 0 <= j < n && record.keys[j] == k;
    }
  }

  /** Every list field other than the id has a `<key>_search` column holding the `" | "`-join of its items. */
  lemma RowHelpers(record: Record, id: Value)
    requires NoSearchKeys(record)
    ensures forall k :: k in record.entries && k != "id" && record.entries[k].List? ==>
      SearchKey(k) in Row(record, id).entries &&
      Row(record, id).entries[SearchKey(k)] == Str(JoinItems(record.entries[k].items))
  {
    HelpersByKey(record, id);
    forall k | k in record.entries && k != "id" && record.entries[k].List?
      ensures SearchKey(k) != "search_blob" && SearchKey(k) != "raw_json"
    {
      SearchKeyEnds(k);
    }
  }

  /** Every helper column of the first `n` fields is the helper of a list field other than the id. */
  lemma {:induction false} ListHelpersAmongListed(record: Record, n: nat)
    requires n <= |record.keys|
    ensures ListHelpersAmong(record, n) <= ListHelpers(record)
  {
    if n > 0 {
      ListHelpersAmongListed(record, n - 1);
      var key := record.keys[n - 1];
      if key != "id" && record.entries[key].List? {
        assert SearchKey(key) in ListHelpers(record);
      }
    }
  }

  // ---------------------------------------------------------------------------
  // prepare_rows and the column list

  /** A record `prepare_rows` accepts: it normalises, and its row has an id that is not `None`. */
  predicate RowOk(record: Record) {
    Normalised(record).Success? && Get(Normalised(record).value, "id") != Null
  }

  /** The error `prepare_rows` raises for a record it rejects. */
  function RowError(record: Record): BuildError {
    if Normalised(record).Failure? then Normalised(record).error else MissingId
  }

  /** A record is accepted exactly when it has an id that is not `None` and that `int()` converts. */
  lemma RowOkIff(record: Record)
    ensures RowOk(record) <==>
      "id" in record.entries && record.entries["id"] != Null && PyInt(record.entries["id"]).Success?
  {
    NormalisedId(record);
  }

  /** Record `i` is the first that `prepare_rows` rejects. */
  predicate FirstRejected(records: seq<Record>, i: nat)
    requires i < |records|
  {
    !RowOk(records[i]) && forall j :: 0 <= j < i ==> RowOk(records[j])
  }

  /** One iteration of the loop of `prepare_rows`: the record's row, or the error that rejects it. */
  method CheckRow(record: Record) returns (res: Result<Dict, BuildError>)
    ensures res.Success? <==> RowOk(record)
    ensures res.Success? ==> Normalised(record) == Success(res.value)
    ensures res.Failure? ==> res.error == RowError(record)
  {
    var row := NormaliseRecord(record);
    if row.Failure? {
      return Failure(row.error);
    }
    if "id" !in row.value.entries || row.value.entries["id"] == Null {
      return Failure(MissingId);
    }
    return row;
  }

  /** The outcome of one record in `prepare_rows`: its row, or the error that rejects it. */
  function Verdict(record: Record): (r: Result<Dict, BuildError>)
    ensures r.Success? <==> RowOk(record)
    ensures r.Success? ==> Normalised(record) == Success(r.value)
    ensures r.Failure? ==> r.error == RowError(record)
  {
    if RowOk(record) then Success(Normalised(record).value) else Failure(RowError(record))
  }

  /** The values of `rs` in order, or the error of the first failure among them. */
  function Collect<T, E>(rs: seq<Result<T, E>>): Result<seq<T>, E>
    decreases |rs|
  {
    if rs == [] then Success([])
    else
      match Collect(rs[..|rs| - 1])
      case Failure(e) => Failure(e)
      case Success(vs) =>
        match rs[|rs| - 1]
        case Failure(e) => Failure(e)
        case Success(v) => Success(vs + [v])
  }

  /** `Collect` succeeds exactly when every result does, keeping them in order; otherwise it gives the first error. */
  lemma {:induction false} CollectMeaning<T, E>(rs: seq<Result<T, E>>)
    ensures Collect(rs).Success? <==> forall i :: 0 <= i < |rs| ==> rs[i].Success?
    ensures Collect(rs).Success? ==> |Collect(rs).value| == |rs|
    ensures Collect(rs).Success? ==> forall i :: 0 <= i < |rs| ==> rs[i] == Success(Collect(rs).value[i])
    ensures Collect(rs).Failure? ==>
      exists i :: 0 <= i < |rs| && rs[i] == Failure(Collect(rs).error) && forall j :: 0 <= j < i ==> rs[j].Success?
    decreases |rs|
  {
    if rs != [] {
      var n := |rs| - 1;
      var init := rs[..n];
      CollectMeaning(init);
      assert forall j :: 0 <= j < n ==> init[j] == rs[j];
      var prev := Collect(init);
      if prev.Failure? {
        var i :| 0 <= i < n && init[i] == Failure(prev.error) && forall j :: 0 <= j < i ==> init[j].Success?;
        assert rs[i] == Failure(Collect(rs).error);
      } else if rs[n].Failure? {
        assert rs[n] == Failure(Collect(rs).error);
      } else {
        var vs := prev.value + [rs[n].value];
        assert Collect(rs) == Success(vs);
        assert forall j :: 0 <= j < n ==> vs[j] == prev.value[j];
      }
    }
  }

  /** Once a prefix of `rs` fails, `Collect` fails with the same error. */
  lemma {:induction false} CollectStops<T, E>(rs: seq<Result<T, E>>, n: nat)
    requires n <= |rs| && Collect(rs[..n]).Failure?
    ensures Collect(rs) == Collect(rs[..n])
    decreases |rs| - n
  {
    if n < |rs| {
      var m := |rs| - 1;
      assert rs[..m][..n] == rs[..n];
      CollectStops(rs[..m], n);
    } else {
      assert rs[..n] == rs;
    }
  }

  /** The outcome of each record in `prepare_rows`, in order. */
  function Verdicts(records: seq<Record>): (rs: seq<Result<Dict, BuildError>>)
    ensures |rs| == |records|
  {
    seq(|records|, i requires 0 <= i < |records| => Verdict(records[i]))
  }

  /** What `prepare_rows` returns: the rows of the records in order, stopping at the first record it rejects. */
  function PreparedRows(records: seq<Record>): Result<seq<Dict>, BuildError> {
    Collect(Verdicts(records))
  }

  /** `prepare_rows` succeeds exactly when it accepts every record. */
  lemma PreparedRowsAccepted(records: seq<Record>)
    ensures PreparedRows(records).Success? <==> forall i :: 0 <= i < |records| ==> RowOk(records[i])
  {
    var rs := Verdicts(records);
    CollectMeaning(rs);
    forall i | 0 <= i < |records| ensures rs[i].Success? <==> RowOk(records[i]) {
      assert rs[i] == Verdict(records[i]);
    }
  }

  /** When `prepare_rows` succeeds, it returns the row of each record, in order. */
  lemma PreparedRowsInOrder(records: seq<Record>)
    requires PreparedRows(records).Success?
    ensures |PreparedRows(records).value| == |records|
    ensures forall i :: 0 <= i < |records| ==> Normalised(records[i]) == Success(PreparedRows(records).value[i])
  {
    var rs := Verdicts(records);
    var rows := Collect(rs).value;
    CollectMeaning(rs);
    forall i | 0 <= i < |records| ensures Normalised(records[i]) == Success(rows[i]) {
      assert rs[i] == Verdict(records[i]) == Success(rows[i]);
    }
  }

  /** When `prepare_rows` fails, it raises the error of the first record it rejects. */
  lemma PreparedRowsFirstError(records: seq<Record>)
    requires PreparedRows(records).Failure?
    ensures exists i :: 0 <= i < |records| && FirstRejected(records, i) && PreparedRows(records).error == RowError(records[i])
  {
    var rs := Verdicts(records);
    CollectMeaning(rs);
    var i :| 0 <= i < |rs| && rs[i] == Failure(Collect(rs).error) && forall j :: 0 <= j < i ==> rs[j].Success?;
    forall j | 0 <= j < i ensures RowOk(records[j]) {
      assert rs[j] == Verdict(records[j]);
    }
    assert rs[i] == Verdict(records[i]);
    assert FirstRejected(records, i);
  }

  /** `prepare_rows`: the loop over the records, raising the first error. */
  method PrepareRows(records: seq<Record>) returns (res: Result<seq<Dict>, BuildError>)
    ensures res == PreparedRows(records)
  {
    ghost var rs := Verdicts(records);
    var rows: seq<Dict> := [];
    for i := 0 to |records|
      invariant Collect(rs[..i]) == Success(rows)
    {
      var row := CheckRow(records[i]);
      assert rs[i] == row;
      assert rs[..i + 1][..i] == rs[..i];
      if row.Failure? {
        CollectStops(rs, i + 1);
        return Failure(row.error);
      }
      rows := rows + [row.value];
    }
    assert rs[..|records|] == rs;
    return Success(rows);
  }

  /** The column list of `create_database`: every key of every row except `id`, sorted, each once. */
  method ColumnList(rows: seq<Dict>) returns (columns: seq<string>)
    ensures StrictlyIncreasing(columns)
    ensures forall c :: c in columns <==> c != "id" && exists i :: 0 <= i < |rows| && c in rows[i].keys
  {
    var names := set i, c | 0 <= i < |rows| && c in rows[i].keys && c != "id" :: c;
    columns := SortedStrings(names);
  }
}

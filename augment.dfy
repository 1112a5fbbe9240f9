/**
 * `augment_record`: before the search serves a record, every list field and
 * every dict field gets a `<key>_search` helper holding searchable text, the
 * `" | "`-join of the list's items or the dict's JSON.
 */
module Augment {
  import opened Values

  /** The values that get a helper: lists and dicts. */
  predicate Augmentable(v: Value) {
    v.List? || v.Obj?
  }

  /** The text of a helper: a list's items joined by `" | "`, a dict as JSON. */
  function HelperText(v: Value): string
    requires Augmentable(v)
  {
    if v.List? then JoinItems(v.items) else Dumps(v)
  }

  /** One step of the loop: a list or dict field sets its helper, any other field leaves the record alone. */
  function AugmentField(d: Dict, key: string, value: Value): Dict {
    if Augmentable(value) then Set(d, SearchKey(key), Str(HelperText(value))) else d
  }

  /** The record after the first `n` of its original fields have been visited. */
  function Augmented(record: Record, n: nat): (r: Dict)
    requires n <= |record.keys|
    ensures WellFormed(r)
  {
    if n == 0 then record
    else
      var prev := Augmented(record, n - 1);
      var key := record.keys[n - 1];
      SetWellFormed(prev, SearchKey(key), Str(if Augmentable(record.entries[key]) then HelperText(record.entries[key]) else ""));
      AugmentField(prev, key, record.entries[key])
  }

  /**
   * `augment_record`: walks a snapshot of the original fields in order and
   * writes each helper into the record.
   */
  method AugmentRecord(record: Record) returns (augmented: Record)
    ensures augmented == Augmented(record, |record.keys|)
  {
    var items := AsObj(record).fields;
    var current: Dict := record;
    for i := 0 to |items|
      invariant current == Augmented(record, i)
    {
      var (key, value) := items[i];
      if value == Null {
        continue;
      }
      if value.List? {
        var joined := JoinItems(value.items);
        current := Set(current, SearchKey(key), Str(joined));
      } else if value.Obj? {
        current := Set(current, SearchKey(key), Str(Dumps(value)));
      }
    }
    augmented := current;
  }

  /** The helpers of the first `n` fields. */
  function HelpersAmong(record: Record, n: nat): set<string>
    requires n <= |record.keys|
  {
    if n == 0 then {}
    else HelpersAmong(record, n - 1) + (if Augmentable(record.entries[record.keys[n - 1]]) then {SearchKey(record.keys[n - 1])} else {})
  }

  /** The helper of every list or dict field. */
  ghost function Helpers(record: Record): set<string> {
    set k | k in record.entries && Augmentable(record.entries[k]) :: SearchKey(k)
  }

  /** One step adds at most the field's helper and changes no other entry. */
  lemma AugmentFieldAt(d: Dict, key: string, value: Value, k: string)
    ensures var r := AugmentField(d, key, value);
      && (k in r.entries <==> k in d.entries || (Augmentable(value) && k == SearchKey(key)))
      && (Augmentable(value) && k == SearchKey(key) ==> r.entries[k] == Str(HelperText(value)))
      && (k in d.entries && !(Augmentable(value) && k == SearchKey(key)) ==> r.entries[k] == d.entries[k])
  {
  }

  /** The original keys come first, in their order: helpers only ever go after them. */
  lemma {:induction false} AugmentedKeepsOrder(record: Record, n: nat)
    requires n <= |record.keys|
    ensures |Augmented(record, n).keys| >= |record.keys|
    ensures Augmented(record, n).keys[..|record.keys|] == record.keys
  {
    if n > 0 {
      AugmentedKeepsOrder(record, n - 1);
    }
  }

  /** The keys after the first `n` fields: the original ones and the helpers of those fields. */
  lemma {:induction false} AugmentedKeys(record: Record, n: nat)
    requires n <= |record.keys|
    ensures forall k :: k in Augmented(record, n).entries <==> k in record.entries || k in HelpersAmong(record, n)
  {
    if n > 0 {
      AugmentedKeys(record, n - 1);
      var key := record.keys[n - 1];
      var prev := Augmented(record, n - 1);
      assert Augmented(record, n) == AugmentField(prev, key, record.entries[key]);
      forall k ensures k in Augmented(record, n).entries <==> k in record.entries || k in HelpersAmong(record, n) {
        AugmentFieldAt(prev, key, record.entries[key], k);
      }
    }
  }

  /** An original field that is no field's helper keeps its value. */
  lemma {:induction false} AugmentedKeepsValues(record: Record, n: nat)
    requires n <= |record.keys|
    ensures forall k :: k in record.entries && k !in HelpersAmong(record, n) ==>
      k in Augmented(record, n).entries && Augmented(record, n).entries[k] == record.entries[k]
  {
    if n > 0 {
      AugmentedKeepsValues(record, n - 1);
      var key := record.keys[n - 1];
      var prev := Augmented(record, n - 1);
      assert Augmented(record, n) == AugmentField(prev, key, record.entries[key]);
      forall k | k in record.entries && k !in HelpersAmong(record, n)
        ensures k in Augmented(record, n).entries && Augmented(record, n).entries[k] == record.entries[k]
      {
        AugmentFieldAt(prev, key, record.entries[key], k);
      }
    }
  }

  /** Every list or dict field among the first `n` has its helper, holding the field's text. */
  lemma {:induction false} AugmentedHelpers(record: Record, n: nat)
    requires n <= |record.keys|
    ensures forall j :: 0 <= j < n && Augmentable(record.entries[record.keys[j]]) ==>
      SearchKey(record.keys[j]) in Augmented(record, n).entries &&
      Augmented(record, n).entries[SearchKey(record.keys[j])] == Str(HelperText(record.entries[record.keys[j]]))
  {
    if n > 0 {
      AugmentedHelpers(record, n - 1);
      var key := record.keys[n - 1];
      var value := record.entries[key];
      var prev := Augmented(record, n - 1);
      var cur := Augmented(record, n);
      assert cur == AugmentField(prev, key, value);
      forall j | 0 <= j < n && Augmentable(record.entries[record.keys[j]])
        ensures SearchKey(record.keys[j]) in cur.entries
        ensures cur.entries[SearchKey(record.keys[j])] == Str(HelperText(record.entries[record.keys[j]]))
      {
        var k := SearchKey(record.keys[j]);
        AugmentFieldAt(prev, key, value, k);
        if j < n - 1 && k == SearchKey(key) {
          SearchKeyInjective(record.keys[j], key);
        }
      }
    }
  }

  lemma {:induction false} HelpersAmongListed(record: Record, n: nat)
    requires n <= |record.keys|
    ensures HelpersAmong(record, n) <= Helpers(record)
  {
    if n > 0 {
      HelpersAmongListed(record, n - 1);
      var key := record.keys[n - 1];
      if Augmentable(record.entries[key]) {
        assert SearchKey(key) in Helpers(record);
      }
    }
  }

  lemma {:induction false} HelpersAmongHas(record: Record, n: nat, j: nat)
    requires j < n <= |record.keys|
    requires Augmentable(record.entries[record.keys[j]])
    ensures SearchKey(record.keys[j]) in HelpersAmong(record, n)
  {
    if j < n - 1 {
      HelpersAmongHas(record, n - 1, j);
    }
  }

  lemma HelpersAmongAll(record: Record)
    ensures HelpersAmong(record, |record.keys|) == Helpers(record)
  {
    var n := |record.keys|;
    HelpersAmongListed(record, n);
    forall k | k in record.entries && Augmentable(record.entries[k])
      ensures SearchKey(k) in HelpersAmong(record, n)
    {
      assert k in record.keys;
      var j :| 0 <= j < n && record.keys[j] == k;
      HelpersAmongHas(record, n, j);
    }
  }

  /**
   * The augmented record: the original keys first and in order, then only
   * helpers; every list or dict field has its helper holding the field's
   * text; every original field that is not itself some field's helper keeps
   * its value.
   */
  lemma AugmentedRecord(record: Record)
    ensures var r := Augmented(record, |record.keys|);
      && |r.keys| >= |record.keys| && r.keys[..|record.keys|] == record.keys
      && (forall k :: k in r.entries <==> k in record.entries || k in Helpers(record))
      && (forall k :: k in record.entries && Augmentable(record.entries[k]) ==>
            SearchKey(k) in r.entries && r.entries[SearchKey(k)] == Str(HelperText(record.entries[k])))
      && (forall k :: k in record.entries && k !in Helpers(record) ==>
            k in r.entries && r.entries[k] == record.entries[k])
  {
    var n := |record.keys|;
    var r := Augmented(record, n);
    AugmentedKeepsOrder(record, n);
    AugmentedKeys(record, n);
    AugmentedKeepsValues(record, n);
    HelpersAmongAll(record);
    AugmentedHelpers(record, n);
    forall k | k in record.entries && Augmentable(record.entries[k])
      ensures SearchKey(k) in r.entries && r.entries[SearchKey(k)] == Str(HelperText(record.entries[k]))
    {
      assert k in record.keys;
      var j :| 0 <= j < n && record.keys[j] == k;
    }
  }

  /** When no field name ends in `_search`, every original field keeps its value. */
  lemma AugmentKeepsFields(record: Record)
    requires forall k :: k in record.entries ==> !EndsWithSearch(k)
    ensures forall k :: k in record.entries ==>
      k in Augmented(record, |record.keys|).entries && Augmented(record, |record.keys|).entries[k] == record.entries[k]
  {
    AugmentedRecord(record);
    forall k | k in record.entries ensures k !in Helpers(record) {
      if k in Helpers(record) {
        var f :| f in record.entries && Augmentable(record.entries[f]) && SearchKey(f) == k;
        SearchKeyEnds(f);
      }
    }
  }

  /** The id survives augmentation unchanged: no helper is called `id`. */
  lemma AugmentKeepsId(record: Record)
    requires "id" in record.entries
    ensures "id" in Augmented(record, |record.keys|).entries
    ensures Augmented(record, |record.keys|).entries["id"] == record.entries["id"]
  {
    AugmentedRecord(record);
    forall f | f in record.entries && Augmentable(record.entries[f]) ensures SearchKey(f) != "id" {
      assert |SearchKey(f)| == |f| + 7;
    }
    assert "id" !in Helpers(record);
  }
}

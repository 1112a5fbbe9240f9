/**
 * The facets of the catalogue: for six fields, the distinct string forms of
 * the values the records hold, collected in record order under a cap per
 * field and then sorted.
 */
module Facets {
  import opened Text
  import opened Values

  /** The facet fields and the most values each may collect. */
  const FacetFields: seq<(string, nat)> :=
    [("decision", 50), ("event_type", 50), ("session", 100), ("topic", 100), ("keywords", 200), ("authors", 200)]

  const FacetNames: set<string> := {"decision", "event_type", "session", "topic", "keywords", "authors"}

  lemma FacetFieldsDistinct()
    ensures forall i :: 0 <= i < |FacetFields| ==> FacetFields[i].0 in FacetNames
    ensures forall i, j :: 0 <= i < j < |FacetFields| ==> FacetFields[i].0 != FacetFields[j].0
  {
  }

  /** A subset is no larger than its superset. */
  lemma {:induction false} SubsetSize(a: set<string>, b: set<string>)
    requires a <= b
    ensures |a| <= |b|
    decreases |a|
  {
    if a != {} {
      var x :| x in a;
      SubsetSize(a - {x}, b - {x});
    }
  }

  /** Adds `x` while the set is below its cap. */
  function AddCapped(s: set<string>, x: string, limit: nat): set<string> {
    if |s| < limit then s + {x} else s
  }

  /** The items of a list one by one, each under the cap. */
  function AddItems(s: set<string>, items: seq<Value>, limit: nat): set<string>
    decreases |items|
  {
    if items == [] then s else AddItems(AddCapped(s, PyStr(items[0]), limit), items[1..], limit)
  }

  /** What one record's value adds: nothing for `None`, each item of a list, else the value itself. */
  function AddValue(s: set<string>, raw: Value, limit: nat): set<string> {
    if raw == Null then s
    else if raw.List? then AddItems(s, raw.items, limit)
    else AddCapped(s, PyStr(raw), limit)
  }

  /** A record's value never removes a collected value, and a full facet takes nothing more. */
  lemma AddValueGrows(s: set<string>, raw: Value, limit: nat)
    ensures s <= AddValue(s, raw, limit)
    ensures |s| >= limit ==> AddValue(s, raw, limit) == s
  {
    if raw.List? {
      AddItemsGrows(s, raw.items, limit);
      if |s| >= limit {
        AddItemsFull(s, raw.items, limit);
      }
    }
  }

  /** Adding items never removes one. */
  lemma {:induction false} AddItemsGrows(s: set<string>, items: seq<Value>, limit: nat)
    ensures s <= AddItems(s, items, limit)
    decreases |items|
  {
    if items != [] {
      AddItemsGrows(AddCapped(s, PyStr(items[0]), limit), items[1..], limit);
    }
  }

  /** The values collected for `field` from the first `n` records. */
  function FacetSet(records: seq<Dict>, n: nat, field: string, limit: nat): set<string>
    requires n <= |records|
  {
    if n == 0 then {} else AddValue(FacetSet(records, n - 1, field, limit), Get(records[n - 1], field), limit)
  }

  /** The string forms of a list's items. */
  function ItemSet(items: seq<Value>): set<string>
    decreases |items|
  {
    if items == [] then {} else {PyStr(items[0])} + ItemSet(items[1..])
  }

  /** The strings a value offers a facet. */
  function Offered(raw: Value): set<string> {
    if raw == Null then {}
    else if raw.List? then ItemSet(raw.items)
    else {PyStr(raw)}
  }

  /** Every string the first `n` records offer for `field`. */
  function AllOffered(records: seq<Dict>, n: nat, field: string): set<string>
    requires n <= |records|
  {
    if n == 0 then {} else AllOffered(records, n - 1, field) + Offered(Get(records[n - 1], field))
  }

  lemma {:induction false} AddItemsBounded(s: set<string>, items: seq<Value>, limit: nat)
    requires |s| <= limit
    ensures |AddItems(s, items, limit)| <= limit
    ensures s <= AddItems(s, items, limit) <= s + ItemSet(items)
    decreases |items|
  {
    if items != [] {
      AddItemsBounded(AddCapped(s, PyStr(items[0]), limit), items[1..], limit);
    }
  }

  /** A facet never holds more values than its cap, and holds only strings the records offer. */
  lemma {:induction false} FacetSetBounded(records: seq<Dict>, n: nat, field: string, limit: nat)
    requires n <= |records|
    ensures |FacetSet(records, n, field, limit)| <= limit
    ensures FacetSet(records, n, field, limit) <= AllOffered(records, n, field)
  {
    if n > 0 {
      FacetSetBounded(records, n - 1, field, limit);
      var raw := Get(records[n - 1], field);
      if raw.List? {
        AddItemsBounded(FacetSet(records, n - 1, field, limit), raw.items, limit);
      }
    }
  }

  /** Once a facet is full, a list adds nothing more (the loop's `break`). */
  lemma {:induction false} AddItemsFull(s: set<string>, items: seq<Value>, limit: nat)
    requires |s| >= limit
    ensures AddItems(s, items, limit) == s
    decreases |items|
  {
    if items != [] {
      AddItemsFull(s, items[1..], limit);
    }
  }

  /** Below the cap, a list's items all get in. */
  lemma {:induction false} AddItemsAll(s: set<string>, items: seq<Value>, limit: nat)
    requires |s + ItemSet(items)| <= limit
    ensures AddItems(s, items, limit) == s + ItemSet(items)
    decreases |items|
  {
    if items != [] {
      var x := PyStr(items[0]);
      SubsetSize(s + {x}, s + ItemSet(items));
      AddCappedAll(s, x, limit);
      assert (s + {x}) + ItemSet(items[1..]) == s + ItemSet(items);
      AddItemsAll(s + {x}, items[1..], limit);
    }
  }

  /** When everything the records offer fits under the cap, the facet holds all of it. */
  lemma {:induction false} FacetSetComplete(records: seq<Dict>, n: nat, field: string, limit: nat)
    requires n <= |records|
    requires |AllOffered(records, n, field)| <= limit
    ensures FacetSet(records, n, field, limit) == AllOffered(records, n, field)
  {
    if n > 0 {
      var prev := AllOffered(records, n - 1, field);
      var raw := Get(records[n - 1], field);
      SubsetSize(prev, AllOffered(records, n, field));
      FacetSetComplete(records, n - 1, field, limit);
      if raw == Null {
      } else if raw.List? {
        AddItemsAll(prev, raw.items, limit);
      } else {
        AddCappedAll(prev, PyStr(raw), limit);
      }
    }
  }

  /** Below the cap, a value gets in. */
  lemma AddCappedAll(s: set<string>, x: string, limit: nat)
    requires |s + {x}| <= limit
    ensures AddCapped(s, x, limit) == s + {x}
  {
    if x !in s {
      assert |s + {x}| == |s| + 1;
    }
  }

  /** A record whose field is `None` or missing adds nothing to that facet. */
  lemma NullAddsNothing(records: seq<Dict>, n: nat, field: string, limit: nat)
    requires 0 < n <= |records| && Get(records[n - 1], field) == Null
    ensures FacetSet(records, n, field, limit) == FacetSet(records, n - 1, field, limit)
    ensures AllOffered(records, n, field) == AllOffered(records, n - 1, field)
  {
  }

  /** Where a facet value comes from: some record offers it for that field. */
  lemma {:induction false} AllOfferedFrom(records: seq<Dict>, n: nat, field: string, x: string)
    requires n <= |records|
    requires x in AllOffered(records, n, field)
    ensures exists i :: 0 <= i < n && x in Offered(Get(records[i], field))
  {
    if x !in Offered(Get(records[n - 1], field)) {
      AllOfferedFrom(records, n - 1, field, x);
    }
  }

  /** The items a list offers are the string forms of its items. */
  lemma {:induction false} ItemSetMembers(items: seq<Value>, x: string)
    ensures x in ItemSet(items) <==> exists i :: 0 <= i < |items| && PyStr(items[i]) == x
    decreases |items|
  {
    if items != [] {
      ItemSetMembers(items[1..], x);
      if exists i :: 0 <= i < |items| && PyStr(items[i]) == x {
        var i :| 0 <= i < |items| && PyStr(items[i]) == x;
        if i > 0 {
          assert items[1..][i - 1] == items[i];
        }
      }
      if exists i :: 0 <= i < |items[1..]| && PyStr(items[1..][i]) == x {
        var i :| 0 <= i < |items[1..]| && PyStr(items[1..][i]) == x;
        assert items[i + 1] == items[1..][i];
      }
    }
  }

  /**
   * The facets as `_build_facets` returns them: one list per facet field,
   * sorted and without duplicates, holding exactly the values collected.
   */
  ghost predicate FacetsFor(facets: map<string, seq<string>>, records: seq<Dict>) {
    && facets.Keys == FacetNames
    && forall j :: 0 <= j < |FacetFields| ==>
      var collected := FacetSet(records, |records|, FacetFields[j].0, FacetFields[j].1);
      && StrictlyIncreasing(facets[FacetFields[j].0])
      && |facets[FacetFields[j].0]| == |collected|
      && forall x :: x in facets[FacetFields[j].0] <==> x in collected
  }

  /**
   * Every facet list is sorted and free of duplicates, no longer than its
   * field's cap, and holds only string forms of values that some record has
   * in that field; when all those values fit under the cap, it holds all of them.
   */
  lemma FacetsProperties(facets: map<string, seq<string>>, records: seq<Dict>, j: nat)
    requires FacetsFor(facets, records) && j < |FacetFields|
    ensures var (field, limit) := FacetFields[j];
      && field in facets
      && StrictlyIncreasing(facets[field])
      && |facets[field]| <= limit
      && (forall x :: x in facets[field] ==> exists i :: 0 <= i < |records| && x in Offered(Get(records[i], field)))
      && (|AllOffered(records, |records|, field)| <= limit ==>
            forall x :: x in facets[field] <==> x in AllOffered(records, |records|, field))
  {
    var (field, limit) := FacetFields[j];
    FacetFieldsDistinct();
    FacetSetBounded(records, |records|, field, limit);
    forall x | x in facets[field] ensures exists i :: 0 <= i < |records| && x in Offered(Get(records[i], field)) {
      AllOfferedFrom(records, |records|, field, x);
    }
    if |AllOffered(records, |records|, field)| <= limit {
      FacetSetComplete(records, |records|, field, limit);
    }
  }

  /** One record's value added to a facet: the list loop stops once the facet is full. */
  method AddRawValue(bucket: set<string>, raw: Value, limit: nat) returns (bucket': set<string>)
    ensures bucket' == AddValue(bucket, raw, limit)
  {
    bucket' := bucket;
    if raw == Null {
      return;
    }
    if raw.List? {
      var k := 0;
      while k < |raw.items|
        invariant k <= |raw.items|
        invariant AddItems(bucket', raw.items[k..], limit) == AddItems(bucket, raw.items, limit)
      {
        if |bucket'| >= limit {
          AddItemsFull(bucket', raw.items[k..], limit);
          return;
        }
        assert raw.items[k..][1..] == raw.items[k + 1..];
        bucket' := bucket' + {PyStr(raw.items[k])};
        k := k + 1;
      }
    } else if |bucket'| < limit {
      bucket' := bucket' + {PyStr(raw)};
    }
  }

  /** One record's pass over the facet fields. */
  method AddRecord(sets: map<string, set<string>>, record: Dict) returns (sets': map<string, set<string>>)
    requires sets.Keys == FacetNames
    ensures sets'.Keys == FacetNames
    ensures forall j :: 0 <= j < |FacetFields| ==>
      sets'[FacetFields[j].0] == AddValue(sets[FacetFields[j].0], Get(record, FacetFields[j].0), FacetFields[j].1)
  {
    FacetFieldsDistinct();
    sets' := sets;
    for j := 0 to |FacetFields|
      invariant sets'.Keys == FacetNames
      invariant forall m :: 0 <= m < j ==>
        sets'[FacetFields[m].0] == AddValue(sets[FacetFields[m].0], Get(record, FacetFields[m].0), FacetFields[m].1)
      invariant forall m :: j <= m < |FacetFields| ==> sets'[FacetFields[m].0] == sets[FacetFields[m].0]
    {
      var (field, limit) := FacetFields[j];
      var rawValue := Get(record, field);
      if rawValue == Null {
        continue;
      }
      var bucket := AddRawValue(sets'[field], rawValue, limit);
      sets' := sets'[field := bucket];
    }
  }
}


/**
 * The in-memory paper store: the records loaded from the database,
 * augmented with their helper columns, indexed by id, with the facets
 * collected once; and the three queries the API serves from it: search,
 * get and schema.
 *
 * The full-text engine and SHA-256 are parameters of the store: the engine
 * maps a prepared full-text query to the ids it matches, in its own order.
 */
module PaperStores {
  import opened Wrappers
  import opened Text
  import opened Values
  import opened Filters
  import opened Ordering
  import opened Augment
  import opened Facets
  import opened FieldTypes

  /** An id the full-text engine returned that no record has (Python's `KeyError`). */
  datatype SearchError = UnknownId(id: Value)

  /** What `schema` returns: the fields with their types, sorted by name, and the facets. */
  datatype SchemaInfo = SchemaInfo(fields: seq<(string, string)>, facets: map<string, seq<string>>)

  /** `record_by_id`: each record under its id. */
  function IndexById(records: seq<Record>): map<Value, Record> {
    if records == [] then map[]
    else
      var last := records[|records| - 1];
      IndexById(records[..|records| - 1])[Get(last, "id") := last]
  }

  /** The record with `id` is the last one of the records carrying it. */
  predicate LastWithId(records: seq<Record>, i: nat)
    requires i < |records|
  {
    forall j :: i < j < |records| ==> Get(records[j], "id") != Get(records[i], "id")
  }

  lemma {:induction false} IndexByIdKeys(records: seq<Record>)
    ensures forall id :: id in IndexById(records) <==> exists i :: 0 <= i < |records| && Get(records[i], "id") == id
  {
    if records != [] {
      var init := records[..|records| - 1];
      IndexByIdKeys(init);
      forall id ensures id in IndexById(records) <==> exists i :: 0 <= i < |records| && Get(records[i], "id") == id {
        if id in IndexById(init) {
          var i :| 0 <= i < |init| && Get(init[i], "id") == id;
          assert records[i] == init[i];
        }
        if exists i :: 0 <= i < |records| && Get(records[i], "id") == id {
          var i :| 0 <= i < |records| && Get(records[i], "id") == id;
          if i < |init| {
            assert init[i] == records[i];
          }
        }
      }
    }
  }

  lemma {:induction false} IndexByIdLast(records: seq<Record>, i: nat)
    requires i < |records| && LastWithId(records, i)
    ensures Get(records[i], "id") in IndexById(records)
    ensures IndexById(records)[Get(records[i], "id")] == records[i]
  {
    var init := records[..|records| - 1];
    var last := records[|records| - 1];
    if i < |init| {
      assert init[i] == records[i];
      assert Get(records[i], "id") != Get(last, "id");
      assert LastWithId(init, i) by {
        forall j | i < j < |init| ensures Get(init[j], "id") != Get(init[i], "id") {
          assert init[j] == records[j];
        }
      }
      IndexByIdLast(init, i);
    }
  }

  lemma {:induction false} IndexByIdValues(records: seq<Record>)
    ensures forall id :: id in IndexById(records) ==> Get(IndexById(records)[id], "id") == id && IndexById(records)[id] in records
  {
    if records != [] {
      var init := records[..|records| - 1];
      var last := records[|records| - 1];
      IndexByIdValues(init);
      forall id | id in IndexById(records) ensures Get(IndexById(records)[id], "id") == id && IndexById(records)[id] in records {
        if id != Get(last, "id") {
          var r := IndexById(init)[id];
          assert r in init;
          var k :| 0 <= k < |init| && init[k] == r;
          assert records[k] == r;
        }
      }
    }
  }

  /**
   * The index holds exactly the ids of the records; under each id a record
   * carrying it, the last such one: a later record with the same id
   * replaces an earlier one.
   */
  lemma IndexByIdSpec(records: seq<Record>)
    ensures var index := IndexById(records);
      && (forall id :: id in index <==> exists i :: 0 <= i < |records| && Get(records[i], "id") == id)
      && (forall i :: 0 <= i < |records| && LastWithId(records, i) ==> index[Get(records[i], "id")] == records[i])
      && (forall id :: id in index ==> Get(index[id], "id") == id && index[id] in records)
  {
    IndexByIdKeys(records);
    IndexByIdValues(records);
    forall i | 0 <= i < |records| && LastWithId(records, i) ensures IndexById(records)[Get(records[i], "id")] == records[i] {
      IndexByIdLast(records, i);
    }
  }

  /** `all_ids`: the ids of the records, in order. */
  function Ids(records: seq<Record>): (ids: seq<Value>)
    ensures |ids| == |records|
    ensures forall i :: 0 <= i < |records| ==> ids[i] == Get(records[i], "id")
  {
    if records == [] then [] else Ids(records[..|records| - 1]) + [Get(records[|records| - 1], "id")]
  }

  /** The ids the full-text engine returns, as the integers they are. */
  function IntIds(ids: seq<int>): (r: seq<Value>)
    ensures |r| == |ids|
    ensures forall i :: 0 <= i < |ids| ==> r[i] == Int(ids[i])
  {
    if ids == [] then [] else IntIds(ids[..|ids| - 1]) + [Int(ids[|ids| - 1])]
  }

  /** `[record_by_id[i] for i in ids]`: fails at the first id without a record. */
  function Lookup(index: map<Value, Record>, ids: seq<Value>): (r: Result<seq<Record>, SearchError>)
    ensures r.Success? <==> forall i :: 0 <= i < |ids| ==> ids[i] in index
    ensures r.Success? ==> |r.value| == |ids| && forall i :: 0 <= i < |ids| ==> r.value[i] == index[ids[i]]
    ensures r.Failure? ==> exists i :: 0 <= i < |ids| && ids[i] !in index && r.error == UnknownId(ids[i]) &&
                                      forall j :: 0 <= j < i ==> ids[j] in index
  {
    if ids == [] then Success([])
    else
      var init := ids[..|ids| - 1];
      var last := ids[|ids| - 1];
      assert forall i :: 0 <= i < |init| ==> init[i] == ids[i];
      match Lookup(index, init)
      case Failure(e) => Failure(e)
      case Success(found) =>
        if last in index then Success(found + [index[last]]) else Failure(UnknownId(last))
  }

  /** The records that match the filters, in their order. */
  function Matching(records: seq<Dict>, filters: map<string, seq<string>>): (r: seq<Dict>)
    ensures |r| <= |records|
  {
    if records == [] then []
    else
      var last := records[|records| - 1];
      Matching(records[..|records| - 1], filters) + (if MatchesFilters(last, filters) then [last] else [])
  }

  /** The matches are exactly the records that match the filters. */
  lemma {:induction false} MatchingMembers(records: seq<Dict>, filters: map<string, seq<string>>, x: Dict)
    ensures x in Matching(records, filters) <==> x in records && MatchesFilters(x, filters)
  {
    if records != [] {
      var init := records[..|records| - 1];
      MatchingMembers(init, filters, x);
      assert records == init + [records[|records| - 1]];
    }
  }

  /**
   * The matches keep the candidates' order and number: matching two lists
   * one after the other gives the matches of each, in turn.
   */
  lemma {:induction false} MatchingAppend(a: seq<Dict>, b: seq<Dict>, filters: map<string, seq<string>>)
    ensures Matching(a + b, filters) == Matching(a, filters) + Matching(b, filters)
    decreases |b|
  {
    if b == [] {
      assert a + b == a;
    } else {
      var init := b[..|b| - 1];
      var last := b[|b| - 1];
      var kept := if MatchesFilters(last, filters) then [last] else [];
      var ab := a + b;
      assert ab[..|ab| - 1] == a + init;
      assert ab[|ab| - 1] == last;
      assert Matching(ab, filters) == Matching(a + init, filters) + kept;
      MatchingAppend(a, init, filters);
      var ma, mi := Matching(a, filters), Matching(init, filters);
      assert Matching(b, filters) == mi + kept;
      assert (ma + mi) + kept == ma + (mi + kept);
    }
  }

  /** A single record is kept exactly when it passes the filters. */
  lemma MatchingOne(x: Dict, filters: map<string, seq<string>>)
    ensures Matching([x], filters) == if MatchesFilters(x, filters) then [x] else []
  {
    assert [x][..0] == [];
  }

  /** With filters that hold for every record, every record matches. */
  lemma {:induction false} MatchingAll(records: seq<Dict>, filters: map<string, seq<string>>)
    requires forall i :: 0 <= i < |records| ==> MatchesFilters(records[i], filters)
    ensures Matching(records, filters) == records
  {
    if records != [] {
      MatchingAll(records[..|records| - 1], filters);
    }
  }

  /** `seed or "0"` */
  function SeedOrDefault(seed: Option<string>): string {
    if seed.None? || seed.value == "" then "0" else seed.value
  }

  /** The order of a search: the random one, a field sort, or by name ascending. */
  function OrderFor(sortBy: Option<string>, sortOrder: Option<string>, seed: Option<string>, sha256: string -> Digest): Order {
    if sortBy == Some("random") then ByHash(SeedOrDefault(seed), sha256)
    else if sortBy.Some? && sortBy.value != "" then ByField(sortBy.value, sortOrder == Some("desc"))
    else ByField("name", false)
  }

  /** The order for each choice of `sort_by`: random by the seed (default "0") and id, a named field, or "name" ascending. */
  lemma OrderForCases(sortBy: Option<string>, sortOrder: Option<string>, seed: Option<string>, sha256: string -> Digest, record: Dict)
    ensures sortBy == Some("random") ==>
      KeyOf(OrderFor(sortBy, sortOrder, seed, sha256), record) == Num(RandKey(sha256, SeedOrDefault(seed), record))
    ensures sortBy == Some("random") && seed.None? ==>
      KeyOf(OrderFor(sortBy, sortOrder, seed, sha256), record) == Num(RandKey(sha256, "0", record))
    ensures sortBy.Some? && sortBy.value !in {"", "random"} ==>
      OrderFor(sortBy, sortOrder, seed, sha256) == ByField(sortBy.value, sortOrder == Some("desc"))
    ensures (sortBy.None? || sortBy == Some("")) ==> OrderFor(sortBy, sortOrder, seed, sha256) == ByField("name", false)
  {
  }

  /** `list.sort(key=..., reverse=...)` on the list in place. */
  method SortInPlace(records: array<Dict>, key: Dict -> Key, descending: bool)
    modifies records
    ensures records[..] == SortBy(key, descending, old(records[..]))
  {
    var sorted := SortBy(key, descending, records[..]);
    forall i | 0 <= i < records.Length {
      records[i] := sorted[i];
    }
  }

  /** `sort_records`: sorts the list in place by a field's sort key. */
  method SortRecords(records: array<Dict>, field: string, descending: bool)
    modifies records
    ensures records[..] == SortBy(KeyFn(ByField(field, descending)), descending, old(records[..]))
  {
    SortInPlace(records, KeyFn(ByField(field, descending)), descending);
  }

  /**
   * `sort_records` leaves a permutation of its input, ordered by the sort
   * key (ascending, or descending with `reverse`), records with equal keys
   * in their original order.
   */
  lemma SortRecordsSpec(records: seq<Dict>, field: string, descending: bool)
    ensures var key := KeyFn(ByField(field, descending));
      var r := SortBy(key, descending, records);
      && multiset(r) == multiset(records)
      && (forall i, j :: 0 <= i < j < |r| ==>
            if descending then !StrLt(SortKey(r[i], field), SortKey(r[j], field))
            else !StrLt(SortKey(r[j], field), SortKey(r[i], field)))
      && (forall k :: WithKey(key, r, k) == WithKey(key, records, k))
  {
    var key := KeyFn(ByField(field, descending));
    SortByPermutation(key, descending, records);
    SortByInOrder(key, descending, records);
    forall k {
      SortByStable(key, descending, records, k);
    }
  }

  class PaperStore {
    const records: seq<Record>
    const recordById: map<Value, Record>
    const allIds: seq<Value>
    const facets: map<string, seq<string>>
    const ftsEngine: string -> seq<int>
    const sha256: string -> Digest

    /** The store's fields as its constructor leaves them. */
    ghost predicate Valid() {
      Indexed() && FacetsFor(facets, records)
    }

    /** Every record has an id; the index and the id list are built from the records. */
    ghost predicate Indexed() {
      && (forall i :: 0 <= i < |records| ==> "id" in records[i].entries)
      && recordById == IndexById(records)
      && allIds == Ids(records)
    }

    /**
     * Builds the store from the loaded records, each of which carries an
     * `id`: augments each record, indexes them by id, lists the ids and
     * collects the facets.
     */
    constructor(loaded: seq<Record>, ftsEngine: string -> seq<int>, sha256: string -> Digest)
      requires forall i :: 0 <= i < |loaded| ==> "id" in loaded[i].entries
      ensures Valid()
      ensures |records| == |loaded|
      ensures forall i :: 0 <= i < |loaded| ==>
        records[i] == Augmented(loaded[i], |loaded[i].keys|) && records[i].entries["id"] == loaded[i].entries["id"]
      ensures this.ftsEngine == ftsEngine && this.sha256 == sha256
    {
      var augmented: seq<Record> := [];
      for i := 0 to |loaded|
        invariant |augmented| == i
        invariant forall j :: 0 <= j < i ==>
          augmented[j] == Augmented(loaded[j], |loaded[j].keys|) && "id" in augmented[j].entries &&
          augmented[j].entries["id"] == loaded[j].entries["id"]
      {
        var record := AugmentRecord(loaded[i]);
        AugmentKeepsId(loaded[i]);
        augmented := augmented + [record];
      }
      records := augmented;
      recordById := IndexById(augmented);
      allIds := Ids(augmented);
      var collected := BuildFacets(augmented);
      facets := collected;
      this.ftsEngine := ftsEngine;
      this.sha256 := sha256;
    }

    /** `_build_facets`: one pass over the records filling capped sets, then each set sorted. */
    static method BuildFacets(records: seq<Dict>) returns (facets: map<string, seq<string>>)
      ensures FacetsFor(facets, records)
    {
      FacetFieldsDistinct();
      var sets: map<string, set<string>> := map f | f in FacetNames :: {};
      for i := 0 to |records|
        invariant sets.Keys == FacetNames
        invariant forall j :: 0 <= j < |FacetFields| ==>
          sets[FacetFields[j].0] == FacetSet(records, i, FacetFields[j].0, FacetFields[j].1)
      {
        sets := AddRecord(sets, records[i]);
      }
      facets := map[];
      for j := 0 to |FacetFields|
        invariant forall f :: f in facets <==> exists m :: 0 <= m < j && FacetFields[m].0 == f
        invariant forall m :: 0 <= m < j ==>
          var collected := sets[FacetFields[m].0];
          && StrictlyIncreasing(facets[FacetFields[m].0])
          && |facets[FacetFields[m].0]| == |collected|
          && forall x :: x in facets[FacetFields[m].0] <==> x in collected
      {
        var field := FacetFields[j].0;
        var sorted := SortedStrings(sets[field]);
        facets := facets[field := sorted];
      }
      FacetNamesListed(facets);
    }

    /** The candidate ids of a search: the engine's hits for a query, else every id. */
    function CandidateIds(query: Option<string>): seq<Value> {
      if query.Some? && query.value != "" then IntIds(FtsLookup(ftsEngine, query.value)) else allIds
    }

    /** The matches of a search in their final order, or the missing id. */
    function Ordered(query: Option<string>, filters: Option<map<string, Value>>,
                     sortBy: Option<string>, sortOrder: Option<string>, seed: Option<string>): Result<seq<Dict>, SearchError>
    {
      match Lookup(recordById, CandidateIds(query))
      case Failure(e) => Failure(e)
      case Success(candidates) =>
        var matched := Matching(candidates, NormalisedFilters(filters));
        var order := OrderFor(sortBy, sortOrder, seed, sha256);
        Success(SortBy(KeyFn(order), Descending(order), matched))
    }

    /** What `search` returns: the number of matches and the requested page of them in order. */
    function SearchResult(query: Option<string>, filters: Option<map<string, Value>>, page: int, pageSize: nat,
                          sortBy: Option<string>, sortOrder: Option<string>, seed: Option<string>): Result<(nat, seq<Dict>), SearchError>
    {
      if query.Some? && query.value != "" && FtsLookup(ftsEngine, query.value) == [] then Success((0, []))
      else
        match Ordered(query, filters, sortBy, sortOrder, seed)
        case Failure(e) => Failure(e)
        case Success(ordered) => Success((|ordered|, Page(ordered, page, pageSize)))
    }

    /** `search`: candidates, filter, order, count and page. */
    method Search(query: Option<string>, filters: Option<map<string, Value>>, page: int, pageSize: nat,
                  sortBy: Option<string>, sortOrder: Option<string>, seed: Option<string>)
      returns (res: Result<(nat, seq<Dict>), SearchError>)
      ensures res == SearchResult(query, filters, page, pageSize, sortBy, sortOrder, seed)
    {
      var filtersNorm := NormaliseFilters(filters);
      var hits := Hits(query);
      if hits.None? {
        return Success((0, []));
      }
      var found := LookupRecords(recordById, hits.value);
      if found.Failure? {
        return Failure(found.error);
      }
      var matched := MatchRecords(found.value, filtersNorm);
      var ordered := Arrange(matched, sortBy, sortOrder, seed);
      assert Ordered(query, filters, sortBy, sortOrder, seed) == Success(ordered);
      var total, paginated := Paginate(ordered, page, pageSize);
      return Success((total, paginated));
    }

    /** The candidate ids of `search`, or `None` when a query finds nothing. */
    method Hits(query: Option<string>) returns (ids: Option<seq<Value>>)
      ensures ids.None? <==> query.Some? && query.value != "" && FtsLookup(ftsEngine, query.value) == []
      ensures ids.Some? ==> ids.value == CandidateIds(query)
    {
      if query.Some? && query.value != "" {
        var hits := FtsLookup(ftsEngine, query.value);
        if hits == [] {
          return None;
        }
        return Some(IntIds(hits));
      }
      return Some(allIds);
    }

    /** The ordering step of `search`: a random sort by seed, `sort_records` on the field, or by name. */
    method Arrange(matched: seq<Dict>, sortBy: Option<string>, sortOrder: Option<string>, seed: Option<string>)
      returns (ordered: seq<Dict>)
      ensures var order := OrderFor(sortBy, sortOrder, seed, sha256);
        ordered == SortBy(KeyFn(order), Descending(order), matched)
    {
      var sorted := new Dict[|matched|](i requires 0 <= i < |matched| => matched[i]);
      assert sorted[..] == matched;
      if sortBy == Some("random") {
        var s := if seed.None? || seed.value == "" then "0" else seed.value;
        SortInPlace(sorted, KeyFn(ByHash(s, sha256)), false);
      } else if sortBy.Some? && sortBy.value != "" {
        var descending := sortOrder == Some("desc");
        SortRecords(sorted, sortBy.value, descending);
      } else {
        SortRecords(sorted, "name", false);
      }
      ordered := sorted[..];
    }

    /** `get`: the record with this id, if any. */
    function Get(paperId: int): Option<Record> {
      if Int(paperId) in recordById then Some(recordById[Int(paperId)]) else None
    }

    /** `schema`: the type of every field seen with a value, sorted by name, and the facets. */
    method Schema() returns (info: SchemaInfo)
      ensures info.facets == facets
      ensures var types := TypesOf(Observations(records, |records|));
        && (forall i, j :: 0 <= i < j < |info.fields| ==> StrLt(info.fields[i].0, info.fields[j].0))
        && (forall k :: k in types <==> exists i :: 0 <= i < |info.fields| && info.fields[i].0 == k)
        && (forall i :: 0 <= i < |info.fields| ==> info.fields[i].0 in types && info.fields[i].1 == types[info.fields[i].0])
    {
      var types: map<string, string> := map[];
      for i := 0 to |records|
        invariant types == TypesOf(Observations(records, i))
      {
        types := ObserveRecord(types, Observations(records, i), records[i]);
      }
      var fields := SortedFields(types);
      info := SchemaInfo(fields, facets);
    }
  }

  /** A query without a single word character finds nothing: its full-text query is empty. */
  lemma SearchNoWords(store: PaperStore, query: string, filters: Option<map<string, Value>>, page: int, pageSize: nat,
                      sortBy: Option<string>, sortOrder: Option<string>, seed: Option<string>)
    requires query != "" && !HasWordChar(query)
    ensures store.SearchResult(Some(query), filters, page, pageSize, sortBy, sortOrder, seed) == Success((0, []))
  {
  }

  /** The matches of a successful search, and the page taken from them in order. */
  lemma SearchUnfold(store: PaperStore, query: Option<string>, filters: Option<map<string, Value>>, page: int, pageSize: nat,
                     sortBy: Option<string>, sortOrder: Option<string>, seed: Option<string>)
    requires store.Ordered(query, filters, sortBy, sortOrder, seed).Success?
    requires !(query.Some? && query.value != "" && FtsLookup(store.ftsEngine, query.value) == [])
    ensures var candidates := Lookup(store.recordById, store.CandidateIds(query)).value;
      var matched := Matching(candidates, NormalisedFilters(filters));
      var ordered := store.Ordered(query, filters, sortBy, sortOrder, seed).value;
      var order := OrderFor(sortBy, sortOrder, seed, store.sha256);
      && ordered == SortBy(KeyFn(order), Descending(order), matched)
      && store.SearchResult(query, filters, page, pageSize, sortBy, sortOrder, seed) == Success((|matched|, Page(ordered, page, pageSize)))
  {
  }

  /** A page of sorted matches holds only candidates that pass the filters. */
  lemma PageMembers(records: seq<Record>, candidates: seq<Dict>, filters: map<string, seq<string>>,
                    ordered: seq<Dict>, page: int, pageSize: nat)
    requires forall c :: c in candidates ==> c in records
    requires multiset(ordered) == multiset(Matching(candidates, filters))
    ensures forall r :: r in Page(ordered, page, pageSize) ==> r in records && MatchesFilters(r, filters)
  {
    var pageRecords := Page(ordered, page, pageSize);
    forall r | r in pageRecords ensures r in records && MatchesFilters(r, filters) {
      var i :| 0 <= i < |pageRecords| && pageRecords[i] == r;
      assert r in multiset(ordered);
      MatchingMembers(candidates, filters, r);
    }
  }

  /**
   * A search that succeeds returns the number of candidates that pass the
   * filters and one page of them: no more than `pageSize` records, each one
   * of the store's records that passes the filters, taken in order from the
   * matches sorted by the chosen order.
   */
  lemma SearchMatches(store: PaperStore, query: Option<string>, filters: Option<map<string, Value>>, page: int, pageSize: nat,
                      sortBy: Option<string>, sortOrder: Option<string>, seed: Option<string>)
    requires store.Indexed()
    requires store.Ordered(query, filters, sortBy, sortOrder, seed).Success?
    requires !(query.Some? && query.value != "" && FtsLookup(store.ftsEngine, query.value) == [])
    ensures var candidates := Lookup(store.recordById, store.CandidateIds(query)).value;
      var matched := Matching(candidates, NormalisedFilters(filters));
      var ordered := store.Ordered(query, filters, sortBy, sortOrder, seed).value;
      var order := OrderFor(sortBy, sortOrder, seed, store.sha256);
      var res := store.SearchResult(query, filters, page, pageSize, sortBy, sortOrder, seed);
      && res == Success((|matched|, Page(ordered, page, pageSize)))
      && multiset(ordered) == multiset(matched)
      && InOrder(KeyFn(order), Descending(order), ordered)
      && |Page(ordered, page, pageSize)| <= pageSize
      && forall r :: r in Page(ordered, page, pageSize) ==> r in store.records && MatchesFilters(r, NormalisedFilters(filters))
  {
    SearchUnfold(store, query, filters, page, pageSize, sortBy, sortOrder, seed);
    var ids := store.CandidateIds(query);
    var candidates := Lookup(store.recordById, ids).value;
    var filt := NormalisedFilters(filters);
    var matched := Matching(candidates, filt);
    var order := OrderFor(sortBy, sortOrder, seed, store.sha256);
    var ordered := store.Ordered(query, filters, sortBy, sortOrder, seed).value;
    SortByPermutation(KeyFn(order), Descending(order), matched);
    SortByInOrder(KeyFn(order), Descending(order), matched);
    LookupFromRecords(store.records, ids);
    PageMembers(store.records, candidates, filt, ordered, page, pageSize);
  }

  /** The records looked up in the index are records of the store. */
  lemma LookupFromRecords(records: seq<Record>, ids: seq<Value>)
    requires Lookup(IndexById(records), ids).Success?
    ensures forall r :: r in Lookup(IndexById(records), ids).value ==> r in records
  {
    var found := Lookup(IndexById(records), ids).value;
    IndexByIdValues(records);
    forall r | r in found ensures r in records {
      var k :| 0 <= k < |found| && found[k] == r;
      assert r == IndexById(records)[ids[k]];
    }
  }

  /** Every id of the records is in the index. */
  lemma LookupAll(records: seq<Record>)
    ensures Lookup(IndexById(records), Ids(records)).Success?
    ensures |Lookup(IndexById(records), Ids(records)).value| == |records|
  {
    IndexByIdKeys(records);
    var ids := Ids(records);
    forall i | 0 <= i < |ids| ensures ids[i] in IndexById(records) {
      assert Get(records[i], "id") == ids[i];
    }
  }

  /** With distinct ids, looking them all up gives back the records. */
  lemma LookupDistinct(records: seq<Record>)
    requires forall i, j :: 0 <= i < j < |records| ==> Get(records[i], "id") != Get(records[j], "id")
    ensures Lookup(IndexById(records), Ids(records)) == Success(records)
  {
    LookupAll(records);
    var index := IndexById(records);
    var ids := Ids(records);
    var found := Lookup(index, ids).value;
    forall i | 0 <= i < |records| ensures found[i] == records[i] {
      assert LastWithId(records, i);
      IndexByIdLast(records, i);
      assert found[i] == index[ids[i]];
    }
    assert |found| == |records|;
    assert found == records;
    assert Lookup(index, ids) == Success(found);
  }

  /** With no query and no filters the matches are all the candidates: every record's id looked up. */
  lemma MatchEverything(store: PaperStore, sortBy: Option<string>, sortOrder: Option<string>, seed: Option<string>)
    requires store.Indexed()
    ensures Lookup(store.recordById, store.allIds).Success?
    ensures var candidates := Lookup(store.recordById, store.allIds).value;
      var order := OrderFor(sortBy, sortOrder, seed, store.sha256);
      && |candidates| == |store.records|
      && store.Ordered(None, None, sortBy, sortOrder, seed) == Success(SortBy(KeyFn(order), Descending(order), candidates))
  {
    LookupAll(store.records);
    var candidates := Lookup(store.recordById, store.allIds).value;
    assert NormalisedFilters(None) == map[];
    assert store.CandidateIds(None) == store.allIds;
    forall i | 0 <= i < |candidates| ensures MatchesFilters(candidates[i], map[]) {
      EmptyFiltersMatch(candidates[i], map[]);
    }
    MatchingAll(candidates, map[]);
  }

  /**
   * With no query and no filters every record is a candidate and every
   * candidate matches, so the total is the number of records.
   */
  lemma SearchEverything(store: PaperStore, page: int, pageSize: nat,
                         sortBy: Option<string>, sortOrder: Option<string>, seed: Option<string>)
    requires store.Indexed()
    ensures var res := store.SearchResult(None, None, page, pageSize, sortBy, sortOrder, seed);
      res.Success? && res.value.0 == |store.records|
  {
    MatchEverything(store, sortBy, sortOrder, seed);
    var order := OrderFor(sortBy, sortOrder, seed, store.sha256);
    var candidates := Lookup(store.recordById, store.allIds).value;
    var ordered := SortBy(KeyFn(order), Descending(order), candidates);
    assert store.SearchResult(None, None, page, pageSize, sortBy, sortOrder, seed) == Success((|ordered|, Page(ordered, page, pageSize)));
  }

  /** When the ids are distinct, a search with no query and no filters orders the records themselves. */
  lemma SearchEverythingDistinct(store: PaperStore, sortBy: Option<string>, sortOrder: Option<string>, seed: Option<string>)
    requires store.Indexed()
    requires forall i, j :: 0 <= i < j < |store.records| ==> Get(store.records[i], "id") != Get(store.records[j], "id")
    ensures store.Ordered(None, None, sortBy, sortOrder, seed).Success?
    ensures multiset(store.Ordered(None, None, sortBy, sortOrder, seed).value) == multiset(store.records)
  {
    MatchEverything(store, sortBy, sortOrder, seed);
    LookupDistinct(store.records);
    var order := OrderFor(sortBy, sortOrder, seed, store.sha256);
    SortByPermutation(KeyFn(order), Descending(order), store.records);
  }

  /** `get` finds a record exactly when some record has that id, and the record it finds has it. */
  lemma GetSpec(store: PaperStore, paperId: int)
    requires store.Indexed()
    ensures store.Get(paperId).Some? <==> exists i :: 0 <= i < |store.records| && Get(store.records[i], "id") == Int(paperId)
    ensures store.Get(paperId).Some? ==>
      store.Get(paperId).value in store.records && Get(store.Get(paperId).value, "id") == Int(paperId)
    ensures forall i :: 0 <= i < |store.records| && Get(store.records[i], "id") == Int(paperId) && LastWithId(store.records, i) ==>
      store.Get(paperId) == Some(store.records[i])
  {
    IndexByIdSpec(store.records);
  }

  /** Every facet field has a list. */
  lemma FacetNamesListed(facets: map<string, seq<string>>)
    requires forall f :: f in facets <==> exists m :: 0 <= m < |FacetFields| && FacetFields[m].0 == f
    ensures facets.Keys == FacetNames
  {
    assert FacetFields[0].0 == "decision" && FacetFields[1].0 == "event_type" && FacetFields[2].0 == "session";
    assert FacetFields[3].0 == "topic" && FacetFields[4].0 == "keywords" && FacetFields[5].0 == "authors";
  }

  /** The candidate records of a search, failing at the first id without a record. */
  method LookupRecords(index: map<Value, Record>, ids: seq<Value>) returns (res: Result<seq<Record>, SearchError>)
    ensures res == Lookup(index, ids)
  {
    var found: seq<Record> := [];
    for i := 0 to |ids|
      invariant Lookup(index, ids[..i]) == Success(found)
    {
      assert ids[..i + 1][..i] == ids[..i];
      if ids[i] !in index {
        return Failure(UnknownId(ids[i]));
      }
      found := found + [index[ids[i]]];
    }
    assert ids[..|ids|] == ids;
    return Success(found);
  }

  /** `[record for record in candidates if record_matches_filters(record, filters)]` */
  method MatchRecords(candidates: seq<Dict>, filters: map<string, seq<string>>) returns (matched: seq<Dict>)
    ensures matched == Matching(candidates, filters)
  {
    matched := [];
    for i := 0 to |candidates|
      invariant matched == Matching(candidates[..i], filters)
    {
      assert candidates[..i + 1][..i] == candidates[..i];
      var ok := RecordMatchesFilters(candidates[i], filters);
      if ok {
        matched := matched + [candidates[i]];
      }
    }
    assert candidates[..|candidates|] == candidates;
  }

  /** `sorted(types.items())`: the fields and their types, by name. */
  method SortedFields(types: map<string, string>) returns (fields: seq<(string, string)>)
    ensures forall i, j :: 0 <= i < j < |fields| ==> StrLt(fields[i].0, fields[j].0)
    ensures forall k :: k in types <==> exists i :: 0 <= i < |fields| && fields[i].0 == k
    ensures forall i :: 0 <= i < |fields| ==> fields[i].0 in types && fields[i].1 == types[fields[i].0]
  {
    var names := SortedStrings(types.Keys);
    fields := [];
    for j := 0 to |names|
      invariant |fields| == j
      invariant forall m :: 0 <= m < j ==> fields[m] == (names[m], types[names[m]])
    {
      fields := fields + [(names[j], types[names[j]])];
    }
    forall k | k in types ensures exists i :: 0 <= i < |fields| && fields[i].0 == k {
      var i :| 0 <= i < |names| && names[i] == k;
      assert fields[i].0 == k;
    }
  }

  lemma ObserveNext(before: seq<Observation>, items: seq<Observation>, m: nat)
    requires m < |items|
    ensures TypesOf(before + items[..m + 1]) == Observe(TypesOf(before + items[..m]), items[m].0, items[m].1)
  {
    var cur := before + items[..m + 1];
    assert cur[..|cur| - 1] == before + items[..m];
    assert cur[|cur| - 1] == items[m];
  }

  /** The count and the slice `ordered[start:start + page_size]` that `search` returns. */
  method Paginate(ordered: seq<Dict>, page: int, pageSize: nat) returns (total: nat, paginated: seq<Dict>)
    ensures total == |ordered| && paginated == Page(ordered, page, pageSize)
  {
    total := |ordered|;
    var start := (if page - 1 > 0 then page - 1 else 0) * pageSize;
    paginated := if start >= total then [] else ordered[start..Min(start + pageSize, total)];
  }

  /** One record's fields observed in order, as the inner loop of `schema` does. */
  method ObserveRecord(types: map<string, string>, ghost before: seq<Observation>, record: Record)
    returns (types': map<string, string>)
    requires types == TypesOf(before)
    ensures types' == TypesOf(before + AsObj(record).fields)
  {
    var items := AsObj(record).fields;
    types' := types;
    assert before + items[..0] == before;
    for m := 0 to |items|
      invariant types' == TypesOf(before + items[..m])
    {
      var (key, value) := items[m];
      ObserveNext(before, items, m);
      ghost var prev := types';
      if value == Null {
        continue;
      }
      var detected := DetectType(value);
      if key in types' && types'[key] != detected {
        types' := types'[key := "mixed"];
      } else if key !in types' {
        types' := types'[key := detected];
      }
      assert types' == Observe(prev, key, value);
    }
    assert items[..|items|] == items;
  }
}

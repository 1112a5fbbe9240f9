# Paper catalogue backend, modelled in Dafny

This project models the backend of a browser for a static catalogue of
conference papers:

- **Index builder** (`backend/scripts/build_index.py`). It flattens each
  paper record into a row: list and dict fields become JSON text, each list
  field gets a `<key>_search` column of its `" | "`-joined items, and all
  the searchable text goes into one `search_blob`. It then rejects records
  without a usable id and lists the columns.
- **In-memory `PaperStore`** (`backend/app/search.py`). It loads the
  records, adds the `<key>_search` helper to every list or dict field
  (`augment_record`), indexes the records by id and collects the facets:
  the capped, sorted sets of values of six filter fields. It serves three
  queries:
  - `search`: full-text candidates, then filters, then a field order or a
    seeded pseudo-random order, then one page;
  - `get`: the paper with a given id;
  - `schema`: every field with its inferred type, plus the facets.
- **Request model** (`backend/app/models.py`). It supplies the defaults,
  bounds and validators of a search request.

The files and modules:

| file | module | what it holds |
|---|---|---|
| `wrappers.dfy` | `Wrappers` | `Option` and `Result` |
| `text.dfy` | `Text` | `str.lower`, `str.strip`, the `\w+` tokens, `join` and `split`, Python's string order, `sorted` on a set of strings, `int()` and `str()` on integers |
| `values.dfy` | `Values` | JSON-like values; the record as an insertion-ordered dict; `str()`, `repr`, `json.dumps`, `int()`; the `" \| "` join of list items; `detect_type` |
| `models.dfy` | `Models` | `SearchRequest`, its defaults, bounds and validators |
| `build_index.dfy` | `BuildIndex` | `normalise_record`, `prepare_rows`, the column list |
| `filters.dfy` | `Filters` | `prepare_fts_query`, `fts_lookup`, `normalise_filters`, `record_matches_filters` |
| `ordering.dfy` | `Ordering` | the sort key of `sort_records`, the seeded SHA-256 key of the random order, Python's stable `list.sort`, and the page slice |
| `augment.dfy` | `Augment` | `augment_record` |
| `facets.dfy` | `Facets` | the facet collection of `_build_facets` |
| `field_types.dfy` | `FieldTypes` | the type inference of `schema` |
| `paper_store.dfy` | `PaperStores` | the `PaperStore` class: constructor, `_build_facets`, `search`, `get`, `schema` |

How the code is modelled:

- **State-changing code is imperative.** The store is a class. The loops
  of the source are methods with loop invariants. `list.sort` sorts an
  array in place.
- **Each such method is proved against a specification function.**
  `Search` against `SearchResult`; `AugmentRecord` against `Augmented`;
  `NormaliseRecord` against `Normalised`.
- **The properties are lemmas about those functions.**

The full-text engine and SHA-256 are parameters of the store.

## Model

| member | source | states |
|---|---|---|
| Text.Lower | backend/app/search.py:21 | `s.lower()` keeps the length and maps every character through the lower-case mapping, position by position |
| Text.Strip | backend/app/search.py:52 | the result has no whitespace at either end and is no longer than the input |
| Text.StripEmpty | backend/app/search.py:52 | `s.strip()` is empty exactly when `s` is all whitespace |
| Text.StripIsSlice | backend/app/search.py:52 | `s.strip()` is the slice of `s` after its leading whitespace; everything after the slice is whitespace too |
| Text.StripIdempotent | backend/app/models.py:39 | stripping twice is stripping once |
| Text.WordTokensShape | backend/app/search.py:21 | every `\w+` token is a non-empty run of word characters; there are none exactly when the text has no word character |
| Text.LowerKeepsWordChars | backend/app/search.py:21 | lower-casing neither adds nor removes word characters, so it does not change whether any token exists |
| Text.SplitJoin | backend/app/search.py:24 | `sep.join(parts).split(sep) == parts` for a non-empty list in which no part contains the separator's first character |
| Text.StrLtIrreflexive | backend/app/search.py:97 | Python's string `<` is irreflexive |
| Text.StrLtTransitive | backend/app/search.py:97 | Python's string `<` is transitive |
| Text.StrLtTotal | backend/app/search.py:97 | any two different strings are ordered one way or the other |
| Text.StrLtAsymmetric | backend/app/search.py:97 | `a < b` rules out `b < a` |
| Text.MinString | backend/app/search.py:148 | returns a member of the non-empty set that is no greater than any member |
| Text.SortedStrings | backend/app/search.py:148 | `sorted(s)` on a set is strictly increasing, so sorted and free of duplicates; it holds exactly the members of `s`, one each |
| Text.NatToDecimalValue | backend/scripts/build_index.py:53 | the decimal digits of `str(n)` denote `n` |
| Text.ParseInt | backend/scripts/build_index.py:53 | `int()` on a string: surrounding whitespace stripped, an optional sign, then digit groups joined by single underscores; the next four rows state its cases |
| Text.ParseDigits | backend/scripts/build_index.py:53 | `int()` of a digit string is its decimal value |
| Text.ParseNegativeDigits | backend/scripts/build_index.py:53 | `int()` of `-` followed by digits is the negated value |
| Text.ParseUnderscore | backend/scripts/build_index.py:53 | `int()` reads two digit groups joined by one underscore as their digits run together (`int("1_000") == 1000`) |
| Text.IntDecimalRoundTrip | backend/scripts/build_index.py:53 | `int(str(i)) == i` for every integer |
| Values.SetWellFormed | backend/app/search.py:106 | assigning `record[key]` keeps the dict well formed: keys distinct, in insertion order, and equal to the entries' domain |
| Values.SearchKeyEnds | backend/app/search.py:106 | a helper column's name ends in `_search` |
| Values.SearchKeyInjective | backend/app/search.py:106 | different fields get different helper columns |
| Values.PyStr | backend/app/search.py:105 | `str()`: a string is itself, anything else its `repr`; `PyStrEmpty` states when it is empty |
| Values.PyStrEmpty | backend/app/search.py:105 | `str(v)` is empty exactly when `v` is `""` |
| Values.Repr | backend/app/search.py:92-95 | `repr` of a value, without escaping; `ReprShape` states its shape |
| Values.ReprShape | backend/app/search.py:92-95 | `repr` is never empty; a string is in single quotes, a list in brackets, a dict in braces |
| Values.Dumps | backend/scripts/build_index.py:62 | `json.dumps` of a value, without escaping; `DumpsShape` states its shape |
| Values.DumpsShape | backend/scripts/build_index.py:62 | the JSON text is never empty; a string is in double quotes, a list in brackets, a dict in braces |
| Values.SearchableItems | backend/app/search.py:105 | the items kept for the join are no more than the list's items, and none is empty |
| Values.SearchableItemsOne | backend/app/search.py:105 | an empty list keeps nothing; a one-item list keeps `str()` of its item exactly when the item is neither `None` nor `""` |
| Values.SearchableItemsAppend | backend/app/search.py:105 | the items kept from `a + b` are those kept from `a`, then those kept from `b`; with the previous row this fixes the result: the `str()` of the other items, in order, one per item |
| Values.SearchableItemsMembers | backend/app/search.py:105 | a string is kept exactly when it is `str()` of some item that is neither `None` nor `""` |
| Values.JoinItemsEmpty | backend/scripts/build_index.py:63-69 | the `" \| "` join is empty exactly when every item is `None` or `""` |
| Values.PyInt | backend/scripts/build_index.py:53 | `int()` returns an integer unchanged and fails on `None`, lists and dicts |
| Values.PyIntCases | backend/scripts/build_index.py:53 | `int()` of a bool is 1 or 0; of a float, the float truncated toward zero; of a string, the string's numeral, failing exactly when it does not parse |
| Values.DetectType | backend/app/search.py:221-232 | for each kind of value, the result is its type name, both ways; a bool is `"boolean"`, never `"integer"`; the result is never `"mixed"` |
| Models.TrimQuery | backend/app/models.py:35-39 | `None` stays `None`; blank text becomes `None`; otherwise the text is stripped, non-empty, and equal to `value.strip()` |
| Models.TrimQueryIdempotent | backend/app/models.py:35-39 | the validator is idempotent |
| Models.ValidateSortOrder | backend/app/models.py:41-48 | `None` passes; text passes exactly when its lower case is `"asc"` or `"desc"`, and is returned lower-cased; otherwise it fails, naming the value |
| Models.ValidateSortOrderIdempotent | backend/app/models.py:41-48 | what the validator returns, it accepts again unchanged |
| Models.ParseRequest | backend/app/models.py:11-48 | a body is accepted exactly when page ≥ 1, 1 ≤ page_size ≤ 100 and the sort order validates; the defaults are page 1, page size 20 and `"asc"`; the query is trimmed; an accepted request is valid |
| BuildIndex.NormaliseRecord | backend/scripts/build_index.py:41-81 | the field loop, the blob and the raw JSON give exactly `Normalised(record)`: the row, or the error of converting the id |
| BuildIndex.AddField | backend/scripts/build_index.py:56-75 | one loop iteration writes that field's columns and appends its blob fragments |
| BuildIndex.IdAmongIff | backend/scripts/build_index.py:51-54 | the id has been visited after `n` fields exactly when `"id"` is among the first `n` keys |
| BuildIndex.ColumnsId | backend/scripts/build_index.py:52-54 | the row has an id column exactly once the id field has been visited, holding the converted id |
| BuildIndex.FieldColumnsId | backend/scripts/build_index.py:52-54 | a field writes the id column only when it is the id, and leaves an existing id column alone otherwise |
| BuildIndex.NormalisedId | backend/scripts/build_index.py:52-53 | normalisation fails exactly when the id is present, not `None`, and not convertible by `int()`; the id column holds `int(id)` or `None`; a record without an id gives a row without one |
| BuildIndex.NormalisedBlob | backend/scripts/build_index.py:77-80 | `search_blob` is the newline-join of the non-empty fragments in field order; `raw_json` is the record's JSON |
| BuildIndex.BlobIgnoresId | backend/scripts/build_index.py:52-54 | the id contributes nothing to the blob: the fragments are those of the other fields, in order |
| BuildIndex.Without | backend/scripts/build_index.py:52-54 | the keys without `id` are exactly the other keys |
| BuildIndex.ColumnsKeys | backend/scripts/build_index.py:51-75 | the row's columns are the fields visited so far plus their helper columns |
| BuildIndex.HelperApart | backend/scripts/build_index.py:64 | with no `_search` field names, a helper column never coincides with a field or another helper |
| BuildIndex.ColumnsCells | backend/scripts/build_index.py:56-74 | each visited field other than the id holds its stored value: lists and dicts as JSON text, scalars as they are |
| BuildIndex.ColumnsHelpers | backend/scripts/build_index.py:60-69 | each visited list field other than the id has its helper holding the `" \| "` join of its items |
| BuildIndex.RowColumns | backend/scripts/build_index.py:48-81 | a row has a column per field, a helper per list field other than the id, `search_blob` and `raw_json`, and nothing else |
| BuildIndex.RowCells | backend/scripts/build_index.py:56-74 | every field other than the id keeps its stored value in the final row |
| BuildIndex.RowHelpers | backend/scripts/build_index.py:60-69 | every list field other than the id has its helper in the final row |
| BuildIndex.ListHelpersAmongListed | backend/scripts/build_index.py:64 | every helper column belongs to a list field other than the id |
| BuildIndex.RowOkIff | backend/scripts/build_index.py:84-91 | a record is accepted exactly when it has an id that is not `None` and that `int()` converts |
| BuildIndex.CheckRow | backend/scripts/build_index.py:87-89 | one iteration: the row when the record is accepted, otherwise the error that rejects it |
| BuildIndex.Verdict | backend/scripts/build_index.py:87-89 | a record's outcome is its row exactly when it is accepted, and the error that rejects it otherwise |
| BuildIndex.CollectMeaning | backend/scripts/build_index.py:86-91 | gathering results succeeds exactly when each does, keeping them in order; otherwise it gives the error of the first failure |
| BuildIndex.CollectStops | backend/scripts/build_index.py:89 | once a prefix fails, the rest changes nothing (the `raise`) |
| BuildIndex.PreparedRows | backend/scripts/build_index.py:84-91 | what `prepare_rows` returns: the records' outcomes gathered in order, stopping at the first error |
| BuildIndex.PreparedRowsAccepted | backend/scripts/build_index.py:84-91 | `prepare_rows` succeeds exactly when every record is accepted |
| BuildIndex.PreparedRowsInOrder | backend/scripts/build_index.py:84-91 | on success there is one row per record, in order, each the record's normalised row |
| BuildIndex.PreparedRowsFirstError | backend/scripts/build_index.py:84-91 | on failure the error is that of the first record rejected |
| BuildIndex.PrepareRows | backend/scripts/build_index.py:84-91 | the loop returns exactly `PreparedRows(records)` |
| BuildIndex.ColumnList | backend/scripts/build_index.py:99 | the columns are strictly increasing and are exactly the keys of the rows other than `id` |
| Filters.Starred | backend/app/search.py:24 | each token gets a trailing `*` |
| Filters.PrepareFtsQuery | backend/app/search.py:14-24 | the full-text query is empty exactly when the query has no word character |
| Filters.PrepareFtsQueryPieces | backend/app/search.py:21-24 | a non-empty full-text query splits on `" AND "` back into its starred tokens, in order, each a word |
| Filters.FtsLookup | backend/app/search.py:27-36 | a query without word characters finds nothing and never reaches the engine; any other query asks the engine for its prepared form |
| Filters.ItemStrings | backend/app/search.py:49 | `str()` of each item, in order |
| Filters.Cleaned | backend/app/search.py:52 | the kept candidates are no more than the inputs, and each is stripped and non-empty |
| Filters.CleanedMembers | backend/app/search.py:52 | a value is kept exactly when it is a candidate's non-empty stripped form |
| Filters.NormalisedFilters | backend/app/search.py:39-53 | what `normalise_filters` returns: a key per raw key whose value is not `None`, holding that value's stripped, non-empty candidates; `NormalisedFiltersShape` states its properties |
| Filters.NormaliseFilters | backend/app/search.py:39-53 | the loop builds exactly `NormalisedFilters(raw)`: `None` values dropped, each other value as its cleaned candidates |
| Filters.FiltersAgree | backend/app/search.py:42-53 | a map with the loop's keys and values is exactly the normalised filters |
| Filters.NormalisedFiltersShape | backend/app/search.py:39-53 | there is a key for each raw key whose value is not `None`; every kept value is stripped and non-empty; a bare string becomes `[s.strip()]`, or `[]` when blank |
| Filters.FieldPasses | backend/app/search.py:58-84 | a field passes when it has no filter values, or when its value (or, when that is `None`, its `_search` helper) is present and one of its tokens matches a value; `MissingFieldFails`, `ExactValuePasses` and `MoreValuesPass` state its cases |
| Filters.MatchesFilters | backend/app/search.py:56-85 | a record matches when every filtered field passes; `EmptyFiltersMatch` and `FewerFieldsMatch` state its properties |
| Filters.RecordMatchesFilters | backend/app/search.py:56-85 | the loop with its early `return False` computes exactly `MatchesFilters` |
| Filters.EmptyFiltersMatch | backend/app/search.py:58-59 | filters without values let every record through |
| Filters.MissingFieldFails | backend/app/search.py:60-67 | a filtered field that is `None`, with no helper column, rejects the record |
| Filters.ExactValuePasses | backend/app/search.py:82-84 | a string field equal to a filter value up to case passes |
| Filters.MoreValuesPass | backend/app/search.py:83 | values within one field are ORed: adding values lets no fewer records through |
| Filters.FewerFieldsMatch | backend/app/search.py:57-85 | fields are ANDed: a record matching the filters matches any subset of them |
| Filters.LowerIdempotent | backend/app/search.py:82-83 | lower-casing twice is lower-casing once |
| Filters.LowerFilters | backend/app/search.py:83 | every filter value lower-cased, same keys |
| Filters.MatchIgnoresCase | backend/app/search.py:82-83 | lower-casing the filter values changes no outcome |
| Ordering.SortKey | backend/app/search.py:89-95 | `None` gives `""`; a string gives itself lower-cased; a non-empty list gives its first item's `str()` lower-cased; any other value (number, bool, dict, empty list) gives its own `str()` lower-cased |
| Ordering.BigEndian | backend/app/search.py:183 | the big-endian value of `k` bytes is below 256^k |
| Ordering.BigEndianRoundTrip | backend/app/search.py:183 | reading back the big-endian bytes of `n < 256^len` gives `n` |
| Ordering.RandKey | backend/app/search.py:179-183 | the random key is below 2^64 |
| Ordering.RandKeyById | backend/app/search.py:180 | the random key depends only on the seed and the id, so records with the same id share a key |
| Ordering.KeyLtIrreflexive | backend/app/search.py:97 | the key order is irreflexive |
| Ordering.KeyLtTransitive | backend/app/search.py:97 | the key order is transitive |
| Ordering.KeyLtTotal | backend/app/search.py:97 | the key order is total |
| Ordering.BeforeTotal | backend/app/search.py:97 | two records neither of which sorts before the other have equal keys, with or without `reverse` |
| Ordering.InsertInOrder | backend/app/search.py:97 | inserting into an ordered list keeps it ordered |
| Ordering.InsertWithKey | backend/app/search.py:97 | an inserted record goes after every record with its key |
| Ordering.SortBy | backend/app/search.py:97 | `list.sort(key=..., reverse=...)`, as an insertion sort, keeps the length; the next three rows pin it down |
| Ordering.SortByPermutation | backend/app/search.py:97 | the sort is a permutation |
| Ordering.SortByInOrder | backend/app/search.py:97 | the sort is ordered by key, ascending, or descending with `reverse` |
| Ordering.SortByStable | backend/app/search.py:97 | the sort is stable: records with equal keys keep their relative order, also with `reverse` |
| Ordering.Page | backend/app/search.py:193-195 | the page has `min(page_size, total - start)` records, or none past the end, and record `i` is record `start + i` |
| Ordering.FirstPagesPrefix | backend/app/search.py:193-195 | pages 1..k together are the first `k * page_size` records: no record is repeated or skipped |
| Ordering.PageBounds | backend/app/search.py:193 | a page past the end is empty; a page below 1 is page 1 |
| Augment.AugmentRecord | backend/app/search.py:100-109 | the loop over the snapshot of the fields gives exactly `Augmented(record)` |
| Augment.Augmented | backend/app/search.py:100-109 | every step keeps the record a well-formed ordered dict |
| Augment.AugmentFieldAt | backend/app/search.py:104-108 | one step adds at most the field's helper and changes no other entry |
| Augment.AugmentedKeepsOrder | backend/app/search.py:101-108 | the original keys stay first and in order |
| Augment.AugmentedKeys | backend/app/search.py:101-108 | the keys are the original ones plus the helpers of the fields visited |
| Augment.AugmentedKeepsValues | backend/app/search.py:101-108 | an original field that is no helper keeps its value |
| Augment.AugmentedHelpers | backend/app/search.py:104-108 | every visited list or dict field has its helper, holding the field's text |
| Augment.HelpersAmongAll | backend/app/search.py:104-108 | the helpers added are exactly those of the list and dict fields |
| Augment.AugmentedRecord | backend/app/search.py:100-109 | original keys first, then only helpers; every list or dict field's helper holds its joined items or its JSON; other original fields unchanged |
| Augment.AugmentKeepsFields | backend/app/search.py:100-109 | with no `_search` field names, every original field keeps its value |
| Augment.AugmentKeepsId | backend/app/search.py:119 | the id survives augmentation unchanged |
| Facets.FacetFieldsDistinct | backend/app/search.py:126-133 | the six facet fields are distinct names |
| Facets.AddItemsBounded | backend/app/search.py:140-144 | adding a list's items never exceeds the cap and adds only its items' strings |
| Facets.FacetSetBounded | backend/app/search.py:134-147 | a facet never holds more than its cap, and only strings some record offers |
| Facets.AddItemsFull | backend/app/search.py:142-143 | once full, a list adds nothing (the `break`) |
| Facets.AddItemsAll | backend/app/search.py:140-144 | below the cap, all of a list's items get in |
| Facets.AddValue | backend/app/search.py:137-147 | what one record's value adds to a facet: nothing for `None`, the items of a list up to the cap, a scalar's `str()` below the cap; `AddValueGrows` states its properties |
| Facets.AddValueGrows | backend/app/search.py:137-147 | adding a value never removes one, and a facet at its cap stays as it is |
| Facets.AddItemsGrows | backend/app/search.py:140-144 | adding a list's items never removes one |
| Facets.FacetSet | backend/app/search.py:134-147 | the set collected for one field over the records so far; `FacetSetBounded` and `FacetSetComplete` state its properties |
| Facets.FacetSetComplete | backend/app/search.py:134-147 | when everything offered fits under the cap, the facet holds all of it |
| Facets.AddCappedAll | backend/app/search.py:146-147 | below the cap, a scalar value gets in |
| Facets.NullAddsNothing | backend/app/search.py:138-139 | a `None` or missing field adds nothing |
| Facets.AllOfferedFrom | backend/app/search.py:134-147 | every offered value comes from some record's field |
| Facets.ItemSetMembers | backend/app/search.py:141-144 | a list offers exactly the `str()` of its items |
| Facets.FacetsProperties | backend/app/search.py:124-148 | each facet list is strictly increasing, within its cap, and made only of values some record holds; it holds all of them when they fit |
| Facets.AddRawValue | backend/app/search.py:137-147 | the inner loop with its `break` adds exactly `AddValue` |
| Facets.AddRecord | backend/app/search.py:136-147 | one record's pass updates each facet field by `AddValue` and no other key |
| FieldTypes.Observe | backend/app/search.py:205-211 | one step of the type inference: `None` is skipped, a new key takes the value's type, a disagreeing type makes `"mixed"`; `ObserveAt` states it |
| FieldTypes.TypesOf | backend/app/search.py:202-211 | the types after all observations in order; `TypesOfKeys`, `TypesOfLattice` and `TypesOfKnown` state its properties |
| FieldTypes.TypesOfKnown | backend/app/search.py:207-211 | every inferred type is `"mixed"` or one of `detect_type`'s names |
| FieldTypes.ObserveAt | backend/app/search.py:205-211 | a step adds a key exactly when it sees that key with a value; other keys are unchanged |
| FieldTypes.TypesOfKeys | backend/app/search.py:202-211 | a field has a type exactly when it was seen with a value that is not `None` |
| FieldTypes.DisagreeGrows | backend/app/search.py:208-209 | a disagreement persists |
| FieldTypes.UnseenStep | backend/app/search.py:205-206 | a step that does not see a key changes nothing about it |
| FieldTypes.SeenStep | backend/app/search.py:207-211 | after a step that sees a key, all its values have type `t` exactly when all earlier ones did and the new one has type `t` |
| FieldTypes.UniformAgrees | backend/app/search.py:208 | values all of one type do not disagree |
| FieldTypes.NewTypeDisagrees | backend/app/search.py:208-209 | a value of a new type makes a disagreement |
| FieldTypes.TypesOfLattice | backend/app/search.py:202-211 | a field's type is `"mixed"` exactly when two of its values have different types; otherwise all its values have that type |
| FieldTypes.MixedStays | backend/app/search.py:208-209 | once `"mixed"`, always `"mixed"` |
| PaperStores.IndexByIdSpec | backend/app/search.py:119 | the index holds exactly the records' ids; each maps to a record with that id, the last one carrying it |
| PaperStores.IndexByIdLast | backend/app/search.py:119 | a record that no later record shares an id with is the one indexed under its id |
| PaperStores.Ids | backend/app/search.py:120 | `all_ids` is the records' ids in order |
| PaperStores.IntIds | backend/app/search.py:36 | the engine's row ids as integers, in order |
| PaperStores.Lookup | backend/app/search.py:169 | succeeds exactly when every id is indexed, giving the records in order; otherwise fails with the first missing id |
| PaperStores.LookupRecords | backend/app/search.py:169 | the loop computes exactly `Lookup` |
| PaperStores.Matching | backend/app/search.py:171 | keeps no more records than it is given |
| PaperStores.MatchingOne | backend/app/search.py:171 | one candidate is kept exactly when it matches the filters |
| PaperStores.MatchingAppend | backend/app/search.py:171 | the matches of `a + b` are those of `a`, then those of `b`; with the previous row this fixes the comprehension: the matching candidates in order, each as often as it occurs |
| PaperStores.MatchingMembers | backend/app/search.py:171 | a record is kept exactly when it is a candidate that matches the filters |
| PaperStores.MatchingAll | backend/app/search.py:171 | when every candidate matches, all are kept, in order |
| PaperStores.MatchRecords | backend/app/search.py:171 | the loop computes exactly `Matching` |
| PaperStores.OrderForCases | backend/app/search.py:173-190 | `"random"` sorts by the hash key of the seed (default `"0"`) and id; any other non-empty `sort_by` sorts by that field, descending iff `sort_order == "desc"`; no `sort_by` sorts by `name` ascending |
| PaperStores.SortInPlace | backend/app/search.py:97 | the array afterwards holds the stable sort of its old contents |
| PaperStores.SortRecords | backend/app/search.py:88-97 | `sort_records` sorts the list in place by the field's sort key |
| PaperStores.SortRecordsSpec | backend/app/search.py:88-97 | the result is a permutation, ordered by sort key (reversed for descending), with equal keys in their original order |
| PaperStores.PaperStore.constructor | backend/app/search.py:115-122 | every loaded record is augmented with its id kept; the index, id list and facets are built from them; the store is valid |
| PaperStores.PaperStore.BuildFacets | backend/app/search.py:124-148 | the facets are one sorted, duplicate-free list per facet field, holding exactly the values collected under the cap |
| PaperStores.PaperStore.Ordered | backend/app/search.py:167-190 | the candidates looked up, filtered and sorted, or the first missing id; `SearchMatches` states its properties |
| PaperStores.PaperStore.SearchResult | backend/app/search.py:160-196 | what `search` returns; `SearchNoWords`, `SearchMatches`, `PageMembers` and `SearchEverything` state its properties |
| PaperStores.PaperStore.Search | backend/app/search.py:150-196 | returns exactly `SearchResult`: `(0, [])` when a query has no hits, the first missing id as an error, otherwise the number of matches and the requested page of the ordered matches |
| PaperStores.PaperStore.Hits | backend/app/search.py:162-167 | `None` exactly when a query finds nothing; otherwise the engine's ids, or every id when there is no query |
| PaperStores.PaperStore.Arrange | backend/app/search.py:173-190 | the matches sorted by the order `sort_by`, `sort_order` and `seed` choose |
| PaperStores.Paginate | backend/app/search.py:192-195 | the total is the number of matches, and the slice is the page |
| PaperStores.PaperStore.Schema | backend/app/search.py:201-218 | the field names are strictly increasing and are exactly the fields seen with a value; each type is the inferred one; the facets are the store's |
| PaperStores.SortedFields | backend/app/search.py:212-216 | `sorted(field_types.items())`: strictly increasing names, exactly the keys, each with its type |
| PaperStores.ObserveRecord | backend/app/search.py:204-211 | the inner loop over one record's fields observes them in order |
| PaperStores.SearchNoWords | backend/app/search.py:162-165 | a non-empty query without a word character returns `(0, [])` |
| PaperStores.SearchMatches | backend/app/search.py:160-196 | the total is the number of candidates that pass the filters; the ordered matches are a permutation of them, in order; the page holds at most `page_size` records, each one of the store's records that passes the filters |
| PaperStores.PageMembers | backend/app/search.py:171-195 | a page of sorted matches holds only candidates that pass the filters |
| PaperStores.LookupFromRecords | backend/app/search.py:169 | looked-up records are records of the store |
| PaperStores.LookupAll | backend/app/search.py:167-169 | looking up every id always succeeds, with one record per id |
| PaperStores.LookupDistinct | backend/app/search.py:167-169 | with distinct ids, looking up every id gives back the records themselves |
| PaperStores.SearchEverything | backend/app/search.py:160-192 | with no query and no filters the search succeeds and the total is the number of records |
| PaperStores.SearchEverythingDistinct | backend/app/search.py:160-190 | with distinct ids, no query and no filters order a permutation of the records |
| PaperStores.PaperStore.Get | backend/app/search.py:198-199 | `get`: the record indexed under the id, or `None`; `GetSpec` states its meaning |
| PaperStores.GetSpec | backend/app/search.py:198-199 | `get` finds a record exactly when some record has that id; the record found has it and is the last record with it |

## Left out

- The SQLite database, its FTS5 `MATCH`, `read_json`, `create_database`'s SQL, `fetch_all_records` and `list_columns`: I/O. The engine is a function parameter of the store. The `columns` field is not kept.
- SHA-256 and the UTF-8 encoding of `"<seed>:<id>"`: SHA-256 is a function parameter returning 32 bytes.
- `str()`, `repr` and `json.dumps` are modelled without string escaping, `ensure_ascii` or float formatting. A float carries its printed text.
- `str.lower()` and `\w` are modelled on ASCII only. Python applies Unicode case mapping and Unicode word characters.
- Text.ParseInt: accepts only the ASCII digits 0-9. Python's `int()` also accepts other Unicode decimal digits, such as Arabic-Indic or full-width digits. Its whitespace, its sign and its underscores between digit groups are modelled.
- Values.PyInt: a string goes through `Text.ParseInt`, so non-ASCII Unicode digits are rejected where Python converts them.
- Models.ParseRequest: `page` and `page_size` arrive as integers. Pydantic's coercion of other inputs, such as the string `"2"` or the float `2.0`, is not modelled.
- Pydantic's error reporting: a rejected request is one `ValidationError` value.
- Aliasing: `augment_record` mutates the loaded dict in place and returns it. The model returns the new record as a value; no other reference to the old dict exists in the store.
- Timsort: `list.sort` is modelled as an insertion sort. Both are stable sorts, and a stable sort's result is determined by the keys. `SortByPermutation`, `SortByInOrder` and `SortByStable` pin it down.
- PaperStores.PaperStore.Search: `page_size` is a natural number. The request model only admits 1 to 100, and the slice semantics of a negative size are not modelled.
- BuildIndex.RowColumns, BuildIndex.RowCells, BuildIndex.RowHelpers and Augment.AugmentKeepsFields assume no field name ends in `_search`. Otherwise a helper overwrites a field; the functions themselves model that case.
- PaperStores.SearchEverythingDistinct: the ids are assumed distinct, as the database's primary key makes them. With duplicate ids, `record_by_id` keeps the last record (`IndexByIdSpec`), and the candidates repeat it.
- Ordering.RandKey: the model does not claim that different ids get different keys. That depends on SHA-256.
- `backend/app/main.py` is not part of this model. It never passes a seed to `search`, so through the API the random order always uses `"0"`.
- Some of the source's behaviours are easy to misread. The model follows the code:
  - A facet can hold `""` and `"None"`: list items are not filtered before `str()`.
  - Records with equal sort keys keep their candidate order, because the sort is stable. They are not ordered by id.
  - `search` clamps a page below 1 to page 1. The request model rejects it earlier.
  - A filter on a field that a record lacks rejects the record. The filter is not ignored.
  - The random order's seed defaults to `"0"`.

/**
 * The query side of the search helpers: turning the user's text into a
 * full-text query, normalising the filters of a request, and deciding
 * whether a record satisfies them (any value within a field, every field).
 */
module Filters {
  import opened Wrappers
  import opened Text
  import opened Values

  // ---------------------------------------------------------------------------
  // prepare_fts_query and the guards of fts_lookup

  /** Each token with a trailing `*`, so that it matches as a prefix. */
  function Starred(tokens: seq<string>): (r: seq<string>)
    ensures |r| == |tokens|
    ensures forall i :: 0 <= i < |r| ==> r[i] == tokens[i] + "*"
  {
    if tokens == [] then [] else [tokens[0] + "*"] + Starred(tokens[1..])
  }

  /**
   * `prepare_fts_query`: the word tokens of the lower-cased query, starred
   * and joined by " AND "; empty exactly when the query has no word character.
   */
  function PrepareFtsQuery(query: string): (fts: string)
    ensures fts == "" <==> !HasWordChar(query)
  {
    var tokens := WordTokens(Lower(query));
    WordTokensShape(Lower(query));
    LowerKeepsWordChars(query);
    if tokens == [] then ""
    else
      assert IsWord(tokens[0]);
      JoinNonEmpty(" AND ", Starred(tokens));
      Join(" AND ", Starred(tokens))
  }

  /** A joined list whose first part is not empty is not empty. */
  lemma JoinNonEmpty(sep: string, parts: seq<string>)
    requires parts != [] && parts[0] != ""
    ensures Join(sep, parts) != ""
  {
    if |parts| > 1 {
      assert Join(sep, parts) == parts[0] + sep + Join(sep, parts[1..]);
    }
  }

  /**
   * A non-empty full-text query splits on " AND " back into the starred
   * tokens, in order: one piece per token, so one separator fewer than
   * there are tokens.
   */
  lemma PrepareFtsQueryPieces(query: string)
    requires HasWordChar(query)
    ensures var tokens := WordTokens(Lower(query));
      && tokens != []
      && (forall i :: 0 <= i < |tokens| ==> IsWord(tokens[i]))
      && SplitOn(PrepareFtsQuery(query), " AND ") == Starred(tokens)
  {
    var tokens := WordTokens(Lower(query));
    WordTokensShape(Lower(query));
    LowerKeepsWordChars(query);
    var parts := Starred(tokens);
    forall i, j | 0 <= i < |parts| && 0 <= j < |parts[i]| ensures parts[i][j] != ' ' {
      assert IsWord(tokens[i]);
      if j < |tokens[i]| {
        assert parts[i][j] == tokens[i][j];
      } else {
        assert parts[i][j] == '*';
      }
    }
    assert " AND "[0] == ' ';
    SplitJoin(parts, " AND ");
  }

  /**
   * `fts_lookup` with the engine's answer as a parameter: an empty query, or
   * one without word tokens, finds nothing and never reaches the engine.
   */
  function FtsLookup(engine: string -> seq<int>, query: string): (ids: seq<int>)
    ensures !HasWordChar(query) ==> ids == []
    ensures HasWordChar(query) ==> ids == engine(PrepareFtsQuery(query))
  {
    if query == [] then []
    else
      var ftsQuery := PrepareFtsQuery(query);
      if ftsQuery == "" then [] else engine(ftsQuery)
  }

  // ---------------------------------------------------------------------------
  // normalise_filters

  /** `str(item)` for every item of a list. */
  function ItemStrings(items: seq<Value>): (r: seq<string>)
    ensures |r| == |items|
    ensures forall i :: 0 <= i < |items| ==> r[i] == PyStr(items[i])
  {
    if items == [] then [] else [PyStr(items[0])] + ItemStrings(items[1..])
  }

  /** The candidate strings of a filter value: a string alone, a list item by item, anything else as `str()`. */
  function Candidates(v: Value): seq<string> {
    match v
    case Str(s) => [s]
    case List(items) => ItemStrings(items)
    case _ => [PyStr(v)]
  }

  /** The candidates, stripped, without those that strip to nothing. */
  function Cleaned(candidates: seq<string>): (r: seq<string>)
    ensures |r| <= |candidates|
    ensures forall i :: 0 <= i < |r| ==> r[i] != "" && IsStripped(r[i])
  {
    if candidates == [] then []
    else
      var c := Strip(candidates[0]);
      var rest := Cleaned(candidates[1..]);
      if c != "" then [c] + rest else rest
  }

  /** Every value `normalise_filters` keeps comes from a candidate, stripped; none is lost but the blank ones. */
  lemma {:induction false} CleanedMembers(candidates: seq<string>, x: string)
    ensures x in Cleaned(candidates) <==> x != "" && exists c :: c in candidates && Strip(c) == x
  {
    if candidates != [] {
      CleanedMembers(candidates[1..], x);
      if exists c :: c in candidates[1..] && Strip(c) == x {
        var c :| c in candidates[1..] && Strip(c) == x;
        assert c in candidates;
      }
      if exists c :: c in candidates && Strip(c) == x {
        var c :| c in candidates && Strip(c) == x;
        if c != candidates[0] {
          assert c in candidates[1..];
        }
      }
    }
  }

  /** What `normalise_filters` returns: `None` values dropped, each other value as its cleaned candidates. */
  function NormalisedFilters(raw: Option<map<string, Value>>): map<string, seq<string>> {
    if raw.None? then map[]
    else map k | k in raw.value && raw.value[k] != Null :: Cleaned(Candidates(raw.value[k]))
  }

  /** `normalise_filters`: one pass over the raw filters, building the normalised dict. */
  method NormaliseFilters(raw: Option<map<string, Value>>) returns (normalised: map<string, seq<string>>)
    ensures normalised == NormalisedFilters(raw)
  {
    if raw.None? || raw.value == map[] {
      return map[];
    }
    var filters := raw.value;
    normalised := map[];
    var todo := filters.Keys;
    while todo != {}
      invariant todo <= filters.Keys
      invariant forall k :: k in normalised <==> k in filters && k !in todo && filters[k] != Null
      invariant forall k :: k in normalised ==> normalised[k] == Cleaned(Candidates(filters[k]))
      decreases todo
    {
      var key :| key in todo;
      todo := todo - {key};
      var value := filters[key];
      if value == Null {
        continue;
      }
      var candidates: seq<string>;
      if value.Str? {
        candidates := [value.s];
      } else if value.List? {
        candidates := ItemStrings(value.items);
      } else {
        candidates := [PyStr(value)];
      }
      assert candidates == Candidates(value);
      normalised := normalised[key := Cleaned(candidates)];
    }
    FiltersAgree(normalised, filters);
  }

  /** A map with the keys and values the loop of `normalise_filters` builds is the normalised filters. */
  lemma FiltersAgree(normalised: map<string, seq<string>>, filters: map<string, Value>)
    requires forall k :: k in normalised <==> k in filters && filters[k] != Null
    requires forall k :: k in normalised ==> normalised[k] == Cleaned(Candidates(filters[k]))
    ensures normalised == NormalisedFilters(Some(filters))
  {
    var spec := NormalisedFilters(Some(filters));
    forall k ensures k in normalised <==> k in spec {
    }
    forall k | k in normalised ensures normalised[k] == spec[k] {
    }
  }

  /**
   * The normalised filters have a key for each raw key whose value is not
   * `None`, and every value they hold is stripped and not empty; a bare
   * string becomes a list of itself, stripped, or an empty list when blank.
   */
  lemma NormalisedFiltersShape(raw: Option<map<string, Value>>)
    ensures forall k :: k in NormalisedFilters(raw) <==> raw.Some? && k in raw.value && raw.value[k] != Null
    ensures forall k, i :: k in NormalisedFilters(raw) && 0 <= i < |NormalisedFilters(raw)[k]| ==>
      NormalisedFilters(raw)[k][i] != "" && IsStripped(NormalisedFilters(raw)[k][i])
    ensures forall k :: raw.Some? && k in raw.value && raw.value[k].Str? ==>
      NormalisedFilters(raw)[k] == (if Strip(raw.value[k].s) == "" then [] else [Strip(raw.value[k].s)])
  {
    forall k | raw.Some? && k in raw.value && raw.value[k].Str?
      ensures NormalisedFilters(raw)[k] == (if Strip(raw.value[k].s) == "" then [] else [Strip(raw.value[k].s)])
    {
      var s := raw.value[k].s;
      assert Candidates(raw.value[k]) == [s];
      assert Cleaned([s]) == (if Strip(s) == "" then [] else [Strip(s)] + Cleaned([]));
    }
  }

  // ---------------------------------------------------------------------------
  // record_matches_filters

  /** The value a filter on `field` looks at: the field, or its `<field>_search` helper when the field is `None`. */
  function FieldValue(record: Dict, field: string): Value {
    var v := Get(record, field);
    if v == Null then Get(record, SearchKey(field)) else v
  }

  /** The strings a field value offers to the filter values. */
  function FieldTokens(v: Value): seq<string> {
    match v
    case Bool(b) => [if b then "true" else "false"]
    case Str(s) => [s]
    case List(items) => ItemStrings(items)
    case _ => [PyStr(v)]
  }

  /** Some filter value, lower-cased, occurs in some token, lower-cased. */
  predicate AnyMatch(tokens: seq<string>, values: seq<string>) {
    exists i, j :: 0 <= i < |tokens| && 0 <= j < |values| && IsSubstring(Lower(values[j]), Lower(tokens[i]))
  }

  /** A field passes when it has no filter values, or when it has a value that some filter value matches. */
  predicate FieldPasses(record: Dict, field: string, values: seq<string>) {
    values == [] || (FieldValue(record, field) != Null && AnyMatch(FieldTokens(FieldValue(record, field)), values))
  }

  /** A record matches when every filtered field passes. */
  predicate MatchesFilters(record: Dict, filters: map<string, seq<string>>) {
    forall f :: f in filters ==> FieldPasses(record, f, filters[f])
  }

  /** `record_matches_filters`: the field loop, which returns false at the first field that fails. */
  method RecordMatchesFilters(record: Dict, filters: map<string, seq<string>>) returns (ok: bool)
    ensures ok == MatchesFilters(record, filters)
  {
    var todo := filters.Keys;
    while todo != {}
      invariant todo <= filters.Keys
      invariant forall f :: f in filters && f !in todo ==> FieldPasses(record, f, filters[f])
      decreases todo
    {
      var field :| field in todo;
      todo := todo - {field};
      var values := filters[field];
      if values == [] {
        continue;
      }
      var fieldValue := Get(record, field);
      if fieldValue == Null {
        var helperValue := Get(record, SearchKey(field));
        if helperValue != Null {
          fieldValue := helperValue;
        }
      }
      if fieldValue == Null {
        return false;
      }
      var tokens := FieldTokens(fieldValue);
      if !AnyMatch(tokens, values) {
        return false;
      }
    }
    return true;
  }

  /** Filters without values, or no filters at all, let every record through. */
  lemma EmptyFiltersMatch(record: Dict, filters: map<string, seq<string>>)
    requires forall f :: f in filters ==> filters[f] == []
    ensures MatchesFilters(record, filters)
  {
  }

  /** A filtered field that the record lacks, together with its helper column, rejects the record. */
  lemma MissingFieldFails(record: Dict, filters: map<string, seq<string>>, f: string)
    requires f in filters && filters[f] != []
    requires Get(record, f) == Null && Get(record, SearchKey(f)) == Null
    ensures !MatchesFilters(record, filters)
  {
  }

  lemma {:induction false} PrefixSubstring(s: string)
    ensures IsSubstring(s, s)
  {
    assert s[..|s|] == s;
  }

  /** A string field equal to one of the filter values passes, whatever the case of either. */
  lemma ExactValuePasses(record: Dict, f: string, values: seq<string>, j: nat)
    requires j < |values|
    requires Get(record, f).Str? && Lower(Get(record, f).s) == Lower(values[j])
    ensures FieldPasses(record, f, values)
  {
    PrefixSubstring(Lower(values[j]));
    assert IsSubstring(Lower(values[j]), Lower(FieldTokens(FieldValue(record, f))[0]));
  }

  /** Adding values to a filtered field can only let more records through (OR within a field). */
  lemma MoreValuesPass(record: Dict, f: string, values: seq<string>, more: seq<string>)
    requires values != []
    requires FieldPasses(record, f, values)
    ensures FieldPasses(record, f, values + more)
  {
    var tokens := FieldTokens(FieldValue(record, f));
    var i, j :| 0 <= i < |tokens| && 0 <= j < |values| && IsSubstring(Lower(values[j]), Lower(tokens[i]));
    assert (values + more)[j] == values[j];
  }

  /** Filtering on fewer fields can only let more records through (AND across fields). */
  lemma FewerFieldsMatch(record: Dict, filters: map<string, seq<string>>, fewer: map<string, seq<string>>)
    requires forall f :: f in fewer ==> f in filters && fewer[f] == filters[f]
    requires MatchesFilters(record, filters)
    ensures MatchesFilters(record, fewer)
  {
  }

  lemma LowerIdempotent(s: string)
    ensures Lower(Lower(s)) == Lower(s)
  {
  }

  /** The values lower-cased. */
  function LowerAll(values: seq<string>): (r: seq<string>)
    ensures |r| == |values|
    ensures forall i :: 0 <= i < |values| ==> r[i] == Lower(values[i])
  {
    if values == [] then [] else [Lower(values[0])] + LowerAll(values[1..])
  }

  /** Every filter value lower-cased. */
  function LowerFilters(filters: map<string, seq<string>>): (r: map<string, seq<string>>)
    ensures r.Keys == filters.Keys
    ensures forall f :: f in r ==> r[f] == LowerAll(filters[f])
  {
    map f | f in filters :: LowerAll(filters[f])
  }

  /** The comparison ignores case: lower-casing the filter values changes no outcome. */
  lemma MatchIgnoresCase(record: Dict, filters: map<string, seq<string>>)
    ensures MatchesFilters(record, filters) <==> MatchesFilters(record, LowerFilters(filters))
  {
    var lowered := LowerFilters(filters);
    forall f | f in filters
      ensures FieldPasses(record, f, filters[f]) <==> FieldPasses(record, f, lowered[f])
    {
      var vs, ls := filters[f], lowered[f];
      assert ls == LowerAll(vs);
      forall j | 0 <= j < |vs| ensures Lower(ls[j]) == Lower(vs[j]) {
        LowerIdempotent(vs[j]);
      }
      var v := FieldValue(record, f);
      if v != Null {
        var tokens := FieldTokens(v);
        if AnyMatch(tokens, vs) {
          var i, j :| 0 <= i < |tokens| && 0 <= j < |vs| && IsSubstring(Lower(vs[j]), Lower(tokens[i]));
          assert IsSubstring(Lower(ls[j]), Lower(tokens[i]));
        }
        if AnyMatch(tokens, ls) {
          var i, j :| 0 <= i < |tokens| && 0 <= j < |ls| && IsSubstring(Lower(ls[j]), Lower(tokens[i]));
          assert IsSubstring(Lower(vs[j]), Lower(tokens[i]));
        }
      }
    }
    assert lowered.Keys == filters.Keys;
    if MatchesFilters(record, filters) {
      assert MatchesFilters(record, lowered);
    }
    if MatchesFilters(record, lowered) {
      forall f | f in filters ensures FieldPasses(record, f, filters[f]) {
        assert FieldPasses(record, f, lowered[f]);
      }
    }
  }
}

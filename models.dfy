/**
 * The body of a search request as the API validates it: defaults for the
 * fields left out, bounds on the page and the page size, a trimmed query and
 * a normalised sort order.
 */
module Models {
  import opened Wrappers
  import opened Text
  import opened Values

  /** The page size used when a request names none. */
  const DefaultPageSize: int := 20

  /** The largest page size a request may ask for. */
  const MaxPageSize: int := 100

  /** A field of the JSON body: left out, sent as `null`, or given a value. */
  datatype Input<T> = Missing | Nil | Given(value: T)

  datatype RawRequest = RawRequest(
    query: Input<string>,
    filters: Input<map<string, Value>>,
    page: Input<int>,
    pageSize: Input<int>,
    sortBy: Input<string>,
    sortOrder: Input<string>)

  datatype SearchRequest = SearchRequest(
    query: Option<string>,
    filters: Option<map<string, Value>>,
    page: int,
    pageSize: int,
    sortBy: Option<string>,
    sortOrder: Option<string>)

  datatype ValidationError =
    | PageNotAnInteger
    | PageBelowOne(page: int)
    | PageSizeNotAnInteger
    | PageSizeOutOfRange(pageSize: int)
    | UnknownSortOrder(sortOrder: string)

  /** `trim_query`: `None` and blank text become `None`, anything else loses its surrounding whitespace. */
  function TrimQuery(value: Option<string>): (r: Option<string>)
    ensures value.None? ==> r.None?
    ensures value.Some? ==> (r.None? <==> forall i :: 0 <= i < |value.value| ==> IsSpace(value.value[i]))
    ensures r.Some? ==> r.value != "" && IsStripped(r.value) && r.value == Strip(value.value)
  {
    match value
    case None => None
    case Some(s) => if Strip(s) == "" then None else Some(Strip(s))
  }

  /** Trimming a trimmed query changes nothing. */
  lemma TrimQueryIdempotent(value: Option<string>)
    ensures TrimQuery(TrimQuery(value)) == TrimQuery(value)
  {
    if value.Some? {
      StripIdempotent(value.value);
    }
  }

  predicate IsSortOrder(s: string) {
    s == "asc" || s == "desc"
  }

  /** `validate_sort_order`: `"asc"` or `"desc"` in any case, returned in lower case; `None` passes through. */
  function ValidateSortOrder(value: Option<string>): (r: Result<Option<string>, ValidationError>)
    ensures value.None? ==> r == Success(None)
    ensures value.Some? ==> (r.Success? <==> IsSortOrder(Lower(value.value)))
    ensures value.Some? && r.Success? ==> r.value == Some(Lower(value.value))
    ensures r.Failure? ==> r.error == UnknownSortOrder(value.value)
  {
    match value
    case None => Success(None)
    case Some(s) =>
      var candidate := Lower(s);
      if IsSortOrder(candidate) then Success(Some(candidate)) else Failure(UnknownSortOrder(s))
  }

  /** What the validator returns, it accepts again unchanged. */
  lemma ValidateSortOrderIdempotent(value: Option<string>)
    requires ValidateSortOrder(value).Success?
    ensures ValidateSortOrder(ValidateSortOrder(value).value) == ValidateSortOrder(value)
  {
    if value.Some? {
      var c := Lower(value.value);
      assert Lower(c) == c;
    }
  }

  /** Every request that passes validation. */
  predicate ValidRequest(r: SearchRequest) {
    && r.page >= 1
    && 1 <= r.pageSize <= MaxPageSize
    && (r.query.Some? ==> r.query.value != "" && IsStripped(r.query.value))
    && (r.sortOrder.Some? ==> IsSortOrder(r.sortOrder.value))
  }

  function OptionOf<T>(i: Input<T>): Option<T> {
    if i.Given? then Some(i.value) else None
  }

  /**
   * Building a `SearchRequest` from a JSON body: the defaults (page 1, page
   * size 20, sort order "asc"), the field bounds and the two validators.
   * A `null` query or sort order is passed through as `None`.
   */
  function ParseRequest(raw: RawRequest): (r: Result<SearchRequest, ValidationError>)
    ensures r.Success? ==> ValidRequest(r.value)
    ensures r.Success? <==>
      && (raw.page.Nil? ==> false) && (raw.page.Given? ==> raw.page.value >= 1)
      && (raw.pageSize.Nil? ==> false) && (raw.pageSize.Given? ==> 1 <= raw.pageSize.value <= MaxPageSize)
      && (raw.sortOrder.Given? ==> IsSortOrder(Lower(raw.sortOrder.value)))
    ensures r.Success? ==> r.value.page == (if raw.page.Given? then raw.page.value else 1)
    ensures r.Success? ==> r.value.pageSize == (if raw.pageSize.Given? then raw.pageSize.value else DefaultPageSize)
    ensures r.Success? && raw.sortOrder.Missing? ==> r.value.sortOrder == Some("asc")
    ensures r.Success? && raw.sortOrder.Nil? ==> r.value.sortOrder.None?
    ensures r.Success? ==> r.value.query == (if raw.query.Given? then TrimQuery(Some(raw.query.value)) else None)
  {
    var page :=
      match raw.page
      case Missing => Success(1)
      case Nil => Failure(PageNotAnInteger)
      case Given(p) => if p >= 1 then Success(p) else Failure(PageBelowOne(p));
    var pageSize :=
      match raw.pageSize
      case Missing => Success(DefaultPageSize)
      case Nil => Failure(PageSizeNotAnInteger)
      case Given(n) => if 1 <= n <= MaxPageSize then Success(n) else Failure(PageSizeOutOfRange(n));
    var sortOrder :=
      match raw.sortOrder
      case Missing => Success(Some("asc"))
      case Nil => ValidateSortOrder(None)
      case Given(s) => ValidateSortOrder(Some(s));
    var query := if raw.query.Given? then TrimQuery(Some(raw.query.value)) else None;
    if page.Failure? then Failure(page.error)
    else if pageSize.Failure? then Failure(pageSize.error)
    else if sortOrder.Failure? then Failure(sortOrder.error)
    else Success(SearchRequest(query, OptionOf(raw.filters), page.value, pageSize.value,
                               OptionOf(raw.sortBy), sortOrder.value))
  }
}

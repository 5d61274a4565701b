/**
 * The single sort drop-down of the ticket lists: each option value is
 * `<field>_<order>`, split into the request's sortBy/sortOrder pair and
 * rebuilt (with normalisation) from the pair held in the filter state.
 */
module TicketListFilters {
  import opened JsString
  import opened TicketsApi

  datatype SortOption = SortOption(value: string, caption: string)

  const SORT_OPTIONS: seq<SortOption> := [
    SortOption("title_asc", "Title (A\U{2013}Z)"),
    SortOption("title_desc", "Title (Z\U{2013}A)"),
    SortOption("createdAt_desc", "Created Date (newest)"),
    SortOption("createdAt_asc", "Created Date (oldest)")
  ]

  /** `options.some((o) => o.value === value)`. */
  function SomeHasValue(options: seq<SortOption>, value: string): (found: bool)
    ensures found <==> exists i :: 0 <= i < |options| && options[i].value == value
  {
    if options == [] then false
    else options[0].value == value || SomeHasValue(options[1..], value)
  }

  /** The value of one of the drop-down's options. */
  type SortOptionValue = v: string | SomeHasValue(SORT_OPTIONS, v) witness "createdAt_desc"

  /** What `paramsToSortOption` falls back to when the rebuilt value is not an option. */
  const DEFAULT_SORT_OPTION: SortOptionValue := "createdAt_desc"

  datatype SortParams = SortParams(sortBy: SortBy, sortOrder: SortOrder)

  /** Each option value is a sort field, an underscore and a sort order. */
  lemma {:induction false} OptionValueShape(v: SortOptionValue)
    ensures exists field: SortBy, order: SortOrder :: v == field + "_" + order
  {
    var i :| 0 <= i < |SORT_OPTIONS| && SORT_OPTIONS[i].value == v;
    if i == 0 {
      assert v == "title" + "_" + "asc";
    } else if i == 1 {
      assert v == "title" + "_" + "desc";
    } else if i == 2 {
      assert v == "createdAt" + "_" + "desc";
    } else {
      assert v == "createdAt" + "_" + "asc";
    }
  }

  /** `field + "_" + order` splits at the underscore into exactly `field` and `order`. */
  lemma SplitSortPair(field: SortBy, order: SortOrder)
    ensures Split(field + "_" + order, '_') == [field, order]
  {
    assert Join([field, order], '_') == field + "_" + order;
    SplitJoin([field, order], '_');
  }

  /**
   * `sortOptionToParams`: splits the option value at `_`. The two pieces are a valid
   * field and order, and putting them back together with `_` gives the value.
   */
  function SortOptionToParams(value: SortOptionValue): (p: SortParams)
    ensures value == p.sortBy + "_" + p.sortOrder
  {
    OptionValueShape(value);
    var field: SortBy, order: SortOrder :| value == field + "_" + order;
    SplitSortPair(field, order);
    var parts := Split(value, '_');
    SortParams(parts[0], parts[1])
  }

  /** Any sortBy other than `title` means `createdAt`. */
  function NormalizeSortBy(sortBy: string): SortBy {
    if sortBy == "title" then "title" else "createdAt"
  }

  /** Any sortOrder other than `asc` means `desc`. */
  function NormalizeSortOrder(sortOrder: string): SortOrder {
    if sortOrder == "asc" then "asc" else "desc"
  }

  /** Every normalised pair is one of the four options, so the fallback to `createdAt_desc` is never taken. */
  lemma FallbackUnreachable(field: SortBy, order: SortOrder)
    ensures SomeHasValue(SORT_OPTIONS, field + "_" + order)
  {
    if field == "title" && order == "asc" {
      assert SORT_OPTIONS[0].value == field + "_" + order;
    } else if field == "title" {
      assert SORT_OPTIONS[1].value == field + "_" + order;
    } else if order == "desc" {
      assert SORT_OPTIONS[2].value == field + "_" + order;
    } else {
      assert SORT_OPTIONS[3].value == field + "_" + order;
    }
  }

  /**
   * `paramsToSortOption`: the result is always one of the four option values (its type),
   * and it is the option whose field and order are the normalised inputs.
   */
  function ParamsToSortOption(sortBy: string, sortOrder: string): (v: SortOptionValue)
    ensures SortOptionToParams(v) == SortParams(NormalizeSortBy(sortBy), NormalizeSortOrder(sortOrder))
  {
    var field := NormalizeSortBy(sortBy);
    var order := NormalizeSortOrder(sortOrder);
    var value := field + "_" + order;
    FallbackUnreachable(field, order);
    var v: SortOptionValue := if SomeHasValue(SORT_OPTIONS, value) then value else DEFAULT_SORT_OPTION;
    SortPairUnique(SortOptionToParams(v), SortParams(field, order));
    v
  }

  /** Two sort pairs that print to the same option value are the same pair. */
  lemma SortPairUnique(p: SortParams, q: SortParams)
    requires p.sortBy + "_" + p.sortOrder == q.sortBy + "_" + q.sortOrder
    ensures p == q
  {
    SplitSortPair(p.sortBy, p.sortOrder);
    SplitSortPair(q.sortBy, q.sortOrder);
  }

  /** Round trip from the drop-down: rebuilding the option from its split pair gives the option back. */
  lemma OptionRoundTrip(v: SortOptionValue)
    ensures var p := SortOptionToParams(v); ParamsToSortOption(p.sortBy, p.sortOrder) == v
  {
    var p := SortOptionToParams(v);
    var w := ParamsToSortOption(p.sortBy, p.sortOrder);
    assert SortOptionToParams(w) == p;
  }

  /** Round trip from the state: a valid pair survives being shown in the drop-down and read back. */
  lemma ParamsRoundTrip(field: SortBy, order: SortOrder)
    ensures SortOptionToParams(ParamsToSortOption(field, order)) == SortParams(field, order)
  {
  }

  /** Every option `<field>_<order>` splits into exactly that field and that order. */
  lemma OptionSplitsAtUnderscore(field: SortBy, order: SortOrder)
    ensures SomeHasValue(SORT_OPTIONS, field + "_" + order)
    ensures SortOptionToParams(field + "_" + order) == SortParams(field, order)
  {
    FallbackUnreachable(field, order);
    SortPairUnique(SortOptionToParams(field + "_" + order), SortParams(field, order));
  }
}

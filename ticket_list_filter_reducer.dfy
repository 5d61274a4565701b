/**
 * The ticket-list filter state, the reducer that every filter control dispatches to,
 * and the two projections of the state into list-request parameters (the user's own
 * list and the agent's full list).
 */
module TicketListFilterReducer {
  import opened Wrappers
  import opened JsString
  import opened JsNumber
  import opened TicketsApi

  /**
   * `searchInput`/`categoryInput` hold what is typed; `search`/`category` hold what
   * was committed and is sent.
   */
  datatype FilterState = FilterState(
    page: int,
    limit: int,
    status: string,
    search: string,
    searchInput: string,
    sortBy: SortBy,
    sortOrder: SortOrder,
    category: string,
    categoryInput: string,
    sentiment: string,
    urgency: string)

  /** A partial sort update: an absent field keeps its current value. */
  datatype SortUpdate = SortUpdate(sortBy: Option<SortBy>, sortOrder: Option<SortOrder>)

  datatype FilterAction =
    | SetPage(newPage: int)
    | SetLimit(newLimit: int)
    | SetStatus(newStatus: string)
    | SetSearchInput(newSearchInput: string)
    | ApplySearch
    | SetSort(update: SortUpdate)
    | SetCategoryInput(newCategoryInput: string)
    | ApplyCategory
    | SetSentiment(newSentiment: string)
    | SetUrgency(newUrgency: string)
    | ClearFilters

  /** The state a list view starts with (`defaultState`, exported as `initialFilterState`). */
  const DEFAULT_STATE := FilterState(
    page := 1, limit := 10, status := "", search := "", searchInput := "",
    sortBy := "createdAt", sortOrder := "desc",
    category := "", categoryInput := "", sentiment := "", urgency := "")

  /** Actions that only move between pages or edit uncommitted text leave `page` alone. */
  predicate KeepsPage(action: FilterAction) {
    action.SetPage? || action.SetSearchInput? || action.SetCategoryInput?
  }

  /**
   * `ticketListFilterReducer`. Every action that changes what is listed (a filter,
   * the sort, the page size, a commit, clearing) goes back to page 1; typing into the
   * search or category box changes nothing that is sent.
   */
  function Reduce(state: FilterState, action: FilterAction): (next: FilterState)
    ensures !KeepsPage(action) ==> next.page == 1
    ensures action.SetSearchInput? || action.SetCategoryInput? ==> next.page == state.page
    ensures next.limit == if action.SetLimit? then action.newLimit else state.limit
  {
    match action
    case SetPage(n) => state.(page := n)
    case SetLimit(n) => state.(limit := n, page := 1)
    case SetStatus(s) => state.(status := s, page := 1)
    case SetSearchInput(s) => state.(searchInput := s)
    case ApplySearch =>
      state.(search := Trim(state.searchInput), searchInput := Trim(state.searchInput), page := 1)
    case SetSort(u) =>
      state.(sortBy := u.sortBy.GetOr(state.sortBy), sortOrder := u.sortOrder.GetOr(state.sortOrder), page := 1)
    case SetCategoryInput(s) => state.(categoryInput := s)
    case ApplyCategory =>
      state.(category := Trim(state.categoryInput), categoryInput := Trim(state.categoryInput), page := 1)
    case SetSentiment(s) => state.(sentiment := s, page := 1)
    case SetUrgency(s) => state.(urgency := s, page := 1)
    case ClearFilters => DEFAULT_STATE.(limit := state.limit)
  }

  /** A run of dispatches, oldest first. */
  function ReduceAll(state: FilterState, actions: seq<FilterAction>): FilterState
    decreases |actions|
  {
    if actions == [] then state else ReduceAll(Reduce(state, actions[0]), actions[1..])
  }

  // ---------------------------------------------------------------------------
  // What each action changes, and that nothing else changes.

  /** SET_PAGE sets the page and nothing else. */
  lemma SetPageFrame(s: FilterState, n: int)
    ensures Reduce(s, SetPage(n)).page == n
    ensures Reduce(s, SetPage(n)).(page := s.page) == s
  {
  }

  /** SET_LIMIT sets the page size, goes back to page 1, and nothing else. */
  lemma SetLimitFrame(s: FilterState, n: int)
    ensures Reduce(s, SetLimit(n)).limit == n && Reduce(s, SetLimit(n)).page == 1
    ensures Reduce(s, SetLimit(n)).(limit := s.limit, page := s.page) == s
  {
  }

  /** SET_STATUS, SET_SENTIMENT and SET_URGENCY set their own field, go back to page 1, and nothing else. */
  lemma SetFilterFrame(s: FilterState, v: string)
    ensures var t := Reduce(s, SetStatus(v)); t.status == v && t.page == 1 && t.(status := s.status, page := s.page) == s
    ensures var t := Reduce(s, SetSentiment(v)); t.sentiment == v && t.page == 1 && t.(sentiment := s.sentiment, page := s.page) == s
    ensures var t := Reduce(s, SetUrgency(v)); t.urgency == v && t.page == 1 && t.(urgency := s.urgency, page := s.page) == s
  {
  }

  /** SET_SORT takes the fields the update carries, keeps the others, and goes back to page 1. */
  lemma SetSortFrame(s: FilterState, u: SortUpdate)
    ensures var t := Reduce(s, SetSort(u));
      && (u.sortBy.Some? ==> t.sortBy == u.sortBy.value)
      && (u.sortOrder.Some? ==> t.sortOrder == u.sortOrder.value)
      && t.page == 1
      && t.(sortBy := s.sortBy, sortOrder := s.sortOrder, page := s.page) == s
    ensures Reduce(s, SetSort(SortUpdate(None, None))) == s.(page := 1)
  {
  }

  /** Typing into the search or category box touches only that box: nothing committed, not the page. */
  lemma SetInputFrame(s: FilterState, v: string)
    ensures var t := Reduce(s, SetSearchInput(v)); t.searchInput == v && t.(searchInput := s.searchInput) == s
    ensures var t := Reduce(s, SetCategoryInput(v)); t.categoryInput == v && t.(categoryInput := s.categoryInput) == s
  {
  }

  /**
   * APPLY_SEARCH commits the trimmed box into both `search` and the box itself and goes
   * back to page 1; applying twice is applying once.
   */
  lemma ApplySearchCommits(s: FilterState)
    ensures var t := Reduce(s, ApplySearch);
      && t.search == Trim(s.searchInput) && t.searchInput == t.search && t.page == 1
      && t.(search := s.search, searchInput := s.searchInput, page := s.page) == s
    ensures Reduce(Reduce(s, ApplySearch), ApplySearch) == Reduce(s, ApplySearch)
  {
    TrimIdempotent(s.searchInput);
  }

  /** APPLY_CATEGORY does for the category what APPLY_SEARCH does for the search. */
  lemma ApplyCategoryCommits(s: FilterState)
    ensures var t := Reduce(s, ApplyCategory);
      && t.category == Trim(s.categoryInput) && t.categoryInput == t.category && t.page == 1
      && t.(category := s.category, categoryInput := s.categoryInput, page := s.page) == s
    ensures Reduce(Reduce(s, ApplyCategory), ApplyCategory) == Reduce(s, ApplyCategory)
  {
    TrimIdempotent(s.categoryInput);
  }

  /**
   * CLEAR_FILTERS gives the initial state except for the page size, which it keeps;
   * clearing again changes nothing, and no filter is active afterwards.
   */
  lemma ClearFiltersResets(s: FilterState)
    ensures var t := Reduce(s, ClearFilters);
      && t.limit == s.limit
      && t.(limit := DEFAULT_STATE.limit) == DEFAULT_STATE
      && Reduce(t, ClearFilters) == t
      && !HasActiveUserFilters(t) && !HasActiveAgentFilters(t)
  {
  }

  // ---------------------------------------------------------------------------
  // Runs of dispatches.

  /**
   * Over a run without SET_PAGE, the page is 1 if any action in the run changed what
   * is listed, and is unchanged otherwise.
   */
  lemma {:induction false} PageAfterRun(s: FilterState, actions: seq<FilterAction>)
    requires forall i :: 0 <= i < |actions| ==> !actions[i].SetPage?
    ensures ReduceAll(s, actions).page ==
      if exists i :: 0 <= i < |actions| && !KeepsPage(actions[i]) then 1 else s.page
    decreases |actions|
  {
    if actions != [] {
      var t := Reduce(s, actions[0]);
      PageAfterRun(t, actions[1..]);
      if exists i :: 0 <= i < |actions| && !KeepsPage(actions[i]) {
        if KeepsPage(actions[0]) {
          var i :| 0 <= i < |actions| && !KeepsPage(actions[i]);
          assert !KeepsPage(actions[1..][i - 1]);
        }
      } else {
        assert forall i :: 0 <= i < |actions| - 1 ==> actions[1..][i] == actions[i + 1];
      }
    }
  }

  /** The committed search and category change only through APPLY_SEARCH, APPLY_CATEGORY or CLEAR_FILTERS. */
  lemma {:induction false} CommittedOnlyByApply(s: FilterState, actions: seq<FilterAction>)
    requires forall i :: 0 <= i < |actions| ==> !(actions[i].ApplySearch? || actions[i].ApplyCategory? || actions[i].ClearFilters?)
    ensures ReduceAll(s, actions).search == s.search
    ensures ReduceAll(s, actions).category == s.category
    decreases |actions|
  {
    if actions != [] {
      CommittedOnlyByApply(Reduce(s, actions[0]), actions[1..]);
    }
  }

  /** The committed search and category never carry surrounding whitespace. */
  predicate CommittedTrimmed(s: FilterState) {
    Trim(s.search) == s.search && Trim(s.category) == s.category
  }

  /** One dispatch keeps the committed values trimmed. */
  lemma ReduceKeepsTrimmed(s: FilterState, action: FilterAction)
    requires CommittedTrimmed(s)
    ensures CommittedTrimmed(Reduce(s, action))
  {
    match action
    case ApplySearch => TrimIdempotent(s.searchInput);
    case ApplyCategory => TrimIdempotent(s.categoryInput);
    case ClearFilters => assert Trim("") == "";
    case _ =>
  }

  /** Every state reached by dispatching from a trimmed state is trimmed. */
  lemma {:induction false} CommittedStaysTrimmed(s: FilterState, actions: seq<FilterAction>)
    requires CommittedTrimmed(s)
    ensures CommittedTrimmed(ReduceAll(s, actions))
    decreases |actions|
  {
    if actions != [] {
      ReduceKeepsTrimmed(s, actions[0]);
      CommittedStaysTrimmed(Reduce(s, actions[0]), actions[1..]);
    }
  }

  // ---------------------------------------------------------------------------
  // From state to request parameters.

  /** `search` is sent cut to 500 characters, `category` to 200. */
  const SEARCH_MAX := 500
  const CATEGORY_MAX := 200

  /**
   * `stateToUserListParams`: page, page size and sort are always sent; the status and
   * the search (cut to 500 characters) only when non-empty; the agent-only filters never.
   */
  function UserListParams(s: FilterState): (p: TicketListParams)
    ensures p.page == Some(s.page) && p.limit == Some(s.limit)
    ensures p.sortBy == Some(s.sortBy) && p.sortOrder == Some(s.sortOrder)
    ensures p.status.Some? <==> s.status != ""
    ensures p.status.Some? ==> p.status.value == s.status
    ensures p.search.Some? <==> s.search != ""
    ensures p.search.Some? ==> p.search.value <= s.search
    ensures p.search.Some? ==> |p.search.value| == if |s.search| <= SEARCH_MAX then |s.search| else SEARCH_MAX
    ensures p.category.None? && p.sentiment.None? && p.urgency.None?
  {
    TicketListParams(
      page := Some(s.page),
      limit := Some(s.limit),
      status := if s.status != "" then Some(s.status) else None,
      search := if s.search != "" then Some(Take(s.search, SEARCH_MAX)) else None,
      category := None,
      sentiment := None,
      urgency := None,
      sortBy := Some(s.sortBy),
      sortOrder := Some(s.sortOrder))
  }

  /** The sentiment is sent when it is non-empty and `Number` does not make it NaN. */
  predicate SendsSentiment(sentiment: string) {
    sentiment != "" && !ToNumber(sentiment).IsNaN()
  }

  /**
   * `stateToAgentListParams`: everything the user list sends, plus the category (cut to
   * 200 characters) and the urgency when non-empty, and the sentiment as a number when
   * it converts to one.
   */
  function AgentListParams(s: FilterState): (p: TicketListParams)
    ensures p.(category := None, sentiment := None, urgency := None) == UserListParams(s)
    ensures p.category.Some? <==> s.category != ""
    ensures p.category.Some? ==> p.category.value <= s.category
    ensures p.category.Some? ==> |p.category.value| == if |s.category| <= CATEGORY_MAX then |s.category| else CATEGORY_MAX
    ensures p.sentiment.Some? <==> SendsSentiment(s.sentiment)
    ensures p.sentiment.Some? ==> p.sentiment.value == ToNumber(s.sentiment) && !p.sentiment.value.IsNaN()
    ensures p.urgency.Some? <==> s.urgency != ""
    ensures p.urgency.Some? ==> p.urgency.value == s.urgency
  {
    TicketListParams(
      page := Some(s.page),
      limit := Some(s.limit),
      status := if s.status != "" then Some(s.status) else None,
      search := if s.search != "" then Some(Take(s.search, SEARCH_MAX)) else None,
      category := if s.category != "" then Some(Take(s.category, CATEGORY_MAX)) else None,
      sentiment := if SendsSentiment(s.sentiment) then Some(ToNumber(s.sentiment)) else None,
      urgency := if s.urgency != "" then Some(s.urgency) else None,
      sortBy := Some(s.sortBy),
      sortOrder := Some(s.sortOrder))
  }

  /**
   * `hasActiveUserFilters`: a status, a committed search, or a sort other than newest
   * first. These are exactly the states whose user-list request, page aside, differs
   * from the request after CLEAR_FILTERS.
   */
  function HasActiveUserFilters(s: FilterState): (active: bool)
    ensures active <==>
      UserListParams(s).(page := None) != UserListParams(Reduce(s, ClearFilters)).(page := None)
  {
    s.status != "" || s.search != "" || s.sortBy != "createdAt" || s.sortOrder != "desc"
  }

  /**
   * `hasActiveAgentFilters`: the user filters, or a category, sentiment or urgency.
   * When the sentiment is empty or numeric, these are exactly the states whose
   * agent-list request, page aside, differs from the request after CLEAR_FILTERS; a
   * non-numeric sentiment counts as an active filter but is not sent.
   */
  function HasActiveAgentFilters(s: FilterState): (active: bool)
    ensures s.sentiment == "" || SendsSentiment(s.sentiment) ==>
      (active <==>
        AgentListParams(s).(page := None) != AgentListParams(Reduce(s, ClearFilters)).(page := None))
    ensures s.sentiment != "" && !SendsSentiment(s.sentiment) ==>
      active && AgentListParams(s).sentiment.None?
  {
    || s.status != "" || s.category != "" || s.sentiment != "" || s.urgency != ""
    || s.search != "" || s.sortBy != "createdAt" || s.sortOrder != "desc"
  }

  /** An active user filter is an active agent filter. */
  lemma UserActiveIsAgentActive(s: FilterState)
    ensures HasActiveUserFilters(s) ==> HasActiveAgentFilters(s)
  {
  }

  /**
   * The status-then-page walk-through: status OPEN and page 3 are sent with the default
   * page size and sort, and no search.
   */
  lemma StatusThenPageRequest()
    ensures var s := ReduceAll(DEFAULT_STATE, [SetStatus("OPEN"), SetPage(3)]);
      UserListParams(s) == TicketListParams(Some(3), Some(10), Some("OPEN"), None, None, None, None, Some("createdAt"), Some("desc"))
  {
  }

  /** A sentiment written as a decimal integer, "7" say, is sent as that number. */
  lemma DecimalSentimentIsSent(s: FilterState, d: string)
    requires |d| > 0 && AllDigits(d, 10)
    ensures AgentListParams(Reduce(s, SetSentiment(d))).sentiment == Some(Finite(DigitsValue(d, 10) as real))
  {
    SetFilterFrame(s, d);
  }
}

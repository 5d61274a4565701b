# Ticket-list filter layer of the support-ticket frontend

This Dafny project models the pure logic behind the ticket lists of a support-ticket
web frontend:

- **the filter state and its reducer** (`src/lib/ticket-list-filter-reducer.ts`): the
  state of a list view (page, page size, status, committed and typed search, sort,
  committed and typed category, sentiment, urgency), the eleven actions the filter
  controls dispatch, the reducer that applies them, the two mappers that turn the state
  into list-request parameters (the user's own list and the agent's full list), and the
  two "is any filter active" predicates;
- **the sort-option codec** (`src/lib/ticket-list-filters.ts`): the four
  `<field>_<order>` drop-down values, their split into a sortBy/sortOrder pair, and the
  normalising way back;
- **the status lookup** (`src/lib/ticket-status.ts`): the four API statuses, their labels
  and badge classes, with fallbacks for unknown strings;
- **the urgency classes of a ticket card** (`src/components/ticket-card.tsx`): the text
  class and the left-border class chosen by the lower-cased urgency.

Every part is a pure function in the source, so every part is a Dafny datatype plus
functions and lemmas. The JavaScript primitives these functions call are modelled in
their own modules: `JsString` (`trim`, `slice(0, n)`, `split`, `toLowerCase`) and
`JsNumber` (`Number(string)` following ECMAScript StringToNumber, and `Number.isNaN`).
`TicketsApi` holds the request-parameter record (`TicketListParams`). The record is
rebuilt from the keys the two mappers emit, and an absent key is `None`. `SortBy` and
`SortOrder` take their two values each from the return type of `sortOptionToParams`
(src/lib/ticket-list-filters.ts:13). `page` and `limit`, JavaScript numbers, are modelled
as `int`; the reducer and the mappers only pass them through, so no behaviour is lost.

Files: `wrappers.dfy`, `js_string.dfy`, `js_number.dfy`, `tickets_api.dfy`,
`ticket_list_filters.dfy`, `ticket_list_filter_reducer.dfy`, `ticket_status.dfy`,
`ticket_card.dfy`.

Behaviour of the code worth knowing:

- The agent mapper sends the sentiment when `Number(...)` is not NaN. It does not require
  a finite number, so `"Infinity"` is sent.
- A non-empty string of only whitespace converts to 0 and is sent as sentiment 0.
- The reducer does not keep `page >= 1` or restrict `limit` to 10/20/50/100. It stores
  whatever payload it is given.
- `status`, `sentiment` and `urgency` are plain strings in the state, not enumerations.

## Model

| member | source | states |
|---|---|---|
| `TicketListFilterReducer.Reduce` | src/lib/ticket-list-filter-reducer.ts:44-88 | every action except SET_PAGE and typing into the search or category box sends the list back to page 1; typing keeps the page; only SET_LIMIT changes the page size |
| `TicketListFilterReducer.SetPageFrame` | src/lib/ticket-list-filter-reducer.ts:49-50 | SET_PAGE sets the page to the payload and changes no other field |
| `TicketListFilterReducer.SetLimitFrame` | src/lib/ticket-list-filter-reducer.ts:51-52 | SET_LIMIT sets the page size, resets the page to 1, and changes nothing else |
| `TicketListFilterReducer.SetFilterFrame` | src/lib/ticket-list-filter-reducer.ts:53-82 | SET_STATUS, SET_SENTIMENT and SET_URGENCY each set their own field, reset the page to 1, and change nothing else |
| `TicketListFilterReducer.SetSortFrame` | src/lib/ticket-list-filter-reducer.ts:64-69 | SET_SORT takes the sort fields the payload carries, keeps the others, and resets the page; an empty payload only resets the page |
| `TicketListFilterReducer.SetInputFrame` | src/lib/ticket-list-filter-reducer.ts:55-71 | SET_SEARCH_INPUT and SET_CATEGORY_INPUT change only their input box, not the committed value and not the page |
| `TicketListFilterReducer.ApplySearchCommits` | src/lib/ticket-list-filter-reducer.ts:57-63 | APPLY_SEARCH puts the trimmed box into both the search and the box, resets the page, changes nothing else, and is idempotent |
| `TicketListFilterReducer.ApplyCategoryCommits` | src/lib/ticket-list-filter-reducer.ts:72-78 | APPLY_CATEGORY does the same for the category, and is idempotent |
| `TicketListFilterReducer.ClearFiltersResets` | src/lib/ticket-list-filter-reducer.ts:83-84 | CLEAR_FILTERS yields the initial state but keeps the page size; it is idempotent, and afterwards neither predicate sees an active filter |
| `TicketListFilterReducer.PageAfterRun` | src/lib/ticket-list-filter-reducer.ts:44-88 | after a run of dispatches without SET_PAGE, the page is 1 if any action in the run changed what is listed, and unchanged otherwise |
| `TicketListFilterReducer.CommittedOnlyByApply` | src/lib/ticket-list-filter-reducer.ts:55-78 | the committed search and category change only through APPLY_SEARCH, APPLY_CATEGORY or CLEAR_FILTERS, whatever else is dispatched |
| `TicketListFilterReducer.ReduceKeepsTrimmed` | src/lib/ticket-list-filter-reducer.ts:57-84 | one dispatch keeps the committed search and category free of surrounding whitespace |
| `TicketListFilterReducer.CommittedStaysTrimmed` | src/lib/ticket-list-filter-reducer.ts:44-88 | every state reachable from a trimmed state (the initial one included) has a trimmed committed search and category |
| `TicketListFilterReducer.UserListParams` | src/lib/ticket-list-filter-reducer.ts:93-102 | page, page size and sort are always sent; the status only when non-empty; the search only when non-empty, as its prefix of length min(length, 500); category, sentiment and urgency never |
| `TicketListFilterReducer.AgentListParams` | src/lib/ticket-list-filter-reducer.ts:105-119 | agrees with the user mapper on every key the user mapper sends; sends the category when non-empty, as its prefix of at most 200 characters; sends the urgency when non-empty; sends the sentiment, converted by `Number`, exactly when it is non-empty and not NaN |
| `TicketListFilterReducer.UserActiveIsAgentActive` | src/lib/ticket-list-filter-reducer.ts:121-140 | an active user filter is always an active agent filter |
| `TicketListFilterReducer.HasActiveUserFilters` | src/lib/ticket-list-filter-reducer.ts:121-128 | the user list has an active filter exactly when its request, page aside, differs from the request after CLEAR_FILTERS |
| `TicketListFilterReducer.HasActiveAgentFilters` | src/lib/ticket-list-filter-reducer.ts:130-140 | the same for the agent list when the sentiment is empty or numeric; a non-numeric sentiment counts as an active filter but is not sent |
| `TicketListFilterReducer.StatusThenPageRequest` | src/lib/ticket-list-filter-reducer.ts:49-102 | from the initial state, status OPEN then page 3 sends page 3, page size 10, status OPEN and the default sort, with no search |
| `TicketListFilterReducer.DecimalSentimentIsSent` | src/lib/ticket-list-filter-reducer.ts:111-112 | a sentiment written as a decimal integer, such as "7", is sent as that number |
| `TicketListFilters.SomeHasValue` | src/lib/ticket-list-filters.ts:25 | the membership test is true exactly when some option has the given value |
| `TicketListFilters.OptionValueShape` | src/lib/ticket-list-filters.ts:2-7 | every option value is a sort field, an underscore and a sort order |
| `TicketListFilters.SortOptionToParams` | src/lib/ticket-list-filters.ts:11-16 | splitting an option at the underscore gives a valid field and order that join back into the option |
| `TicketListFilters.OptionSplitsAtUnderscore` | src/lib/ticket-list-filters.ts:2-16 | for every field and order, `<field>_<order>` is an option and splits into exactly that field and order |
| `TicketListFilters.FallbackUnreachable` | src/lib/ticket-list-filters.ts:24-25 | every normalised pair is one of the four options, so the `createdAt_desc` fallback is never taken |
| `TicketListFilters.ParamsToSortOption` | src/lib/ticket-list-filters.ts:18-26 | the result is always one of the four options, and it is the option for the normalised pair: `title` else `createdAt`, `asc` else `desc` |
| `TicketListFilters.SortPairUnique` | src/lib/ticket-list-filters.ts:11-26 | two field/order pairs that give the same option value are the same pair |
| `TicketListFilters.OptionRoundTrip` | src/lib/ticket-list-filters.ts:2-26 | splitting an option and rebuilding it gives the option back |
| `TicketListFilters.ParamsRoundTrip` | src/lib/ticket-list-filters.ts:11-26 | rebuilding the option from a valid pair and splitting it gives the pair back |
| `TicketStatus.ParseStatus` | src/lib/ticket-status.ts:2-7 | a string is read as a status exactly when it is the API string of one of the four statuses |
| `TicketStatus.TablesCoverStatuses` | src/lib/ticket-status.ts:9-26 | the label table and the colour table have exactly the four statuses as keys |
| `TicketStatus.GetStatusLabel` | src/lib/ticket-status.ts:29-31 | the label equals the input exactly when the input is not a known status, so unknown strings come back unchanged |
| `TicketStatus.StatusLabelTable` | src/lib/ticket-status.ts:9-14 | OPEN, IN_PROGRESS, RESOLVED and CLOSED are labelled Open, In progress, Resolved and Closed |
| `TicketStatus.GetStatusColorClass` | src/lib/ticket-status.ts:34-38 | the class is never empty, and it is the muted badge exactly for CLOSED and for every unknown string |
| `TicketStatus.StatusColorTable` | src/lib/ticket-status.ts:17-26 | OPEN is blue, IN_PROGRESS amber, RESOLVED emerald, each with its light and dark classes, and CLOSED is the muted badge |
| `TicketStatus.KnownStatusesDistinguishable` | src/lib/ticket-status.ts:9-26 | distinct statuses get distinct labels and distinct badge classes |
| `TicketCard.UrgencyColorClass` | src/components/ticket-card.tsx:15-22 | a missing or empty urgency is muted; the class is coloured exactly when the lower-cased urgency is low, high or medium |
| `TicketCard.UrgencyBorderClass` | src/components/ticket-card.tsx:25-33 | every class starts with `border-l-4 `; it is coloured exactly when the lower-cased urgency is low, high or medium |
| `TicketCard.UrgencyColours` | src/components/ticket-card.tsx:17-31 | low is green, high is red and medium is yellow, in both classes and in any letter case |
| `TicketCard.CaseInsensitive` | src/components/ticket-card.tsx:17-28 | urgencies that are equal up to letter case get the same text class and the same border class |
| `TicketCard.BorderMatchesText` | src/components/ticket-card.tsx:24-33 | two urgencies get the same text class exactly when they get the same border class, as the doc comment says |
| `JsString.Trim` | src/lib/ticket-list-filter-reducer.ts:60-61 | `trim` returns a contiguous piece of the input, cuts off only whitespace, and returns a piece that neither starts nor ends with whitespace |
| `JsString.TrimIdempotent` | src/lib/ticket-list-filter-reducer.ts:60-61 | trimming twice is trimming once |
| `JsString.TrimEmptyIffAllWhitespace` | src/lib/ticket-list-filter-reducer.ts:75-76 | a string trims to empty exactly when it is all whitespace |
| `JsString.Take` | src/lib/ticket-list-filter-reducer.ts:98 | `slice(0, n)` is the prefix of length min(length, n) |
| `JsString.Lower` | src/components/ticket-card.tsx:17 | `toLowerCase` keeps the length, maps each letter A to Z to the small letter at the same place in the alphabet, and leaves every other character alone |
| `JsString.Split` | src/lib/ticket-list-filters.ts:14 | `split` gives at least one piece, no piece holds the separator, and joining the pieces with the separator gives the input back |
| `JsString.SplitJoin` | src/lib/ticket-list-filters.ts:14 | splitting the join of separator-free pieces gives the pieces back |
| `JsNumber.ToNumber` | src/lib/ticket-list-filter-reducer.ts:111-112 | `Number` of a string of only whitespace, the empty string included, is 0 rather than NaN, and `Number` of a decimal integer string is its value |
| `JsNumber.ToNumberIgnoresSurroundingWhitespace` | src/lib/ticket-list-filter-reducer.ts:111-112 | whitespace around the string does not change the number |
| `JsNumber.HexLiteralValue` | src/lib/ticket-list-filter-reducer.ts:111-112 | a `0x` literal converts to its hexadecimal value |
| `JsNumber.SignedHexLiteralIsNaN` | src/lib/ticket-list-filter-reducer.ts:111-112 | a `0x` literal with a sign is NaN, so it is not sent |

## Left out

- Debouncing, the applied-parameters state of the list pages, pagination handling, data fetching, the query cache, authentication and all rendering. These are React hooks, timers, network I/O and JSX, outside the filter layer.
- `formatDate`, `SentimentBadge` and the `URGENCY_FILTER_OPTIONS` constant. The first two render (one formats a locale date); the constant is display data that no modelled function reads.
- The reducer's `default` branch. The action type is closed, so no well-typed action reaches it.
- A SET_SORT payload whose key is present but `undefined`. In JavaScript the spread would then store `undefined`; here an absent field keeps the current value.
- Property-name quirks of the status tables. A lookup such as `STATUS_LABELS["constructor"]` reaches `Object.prototype`; here the tables are four-key maps.
- `JsNumber.ToNumber` keeps finite results as exact rationals and does not round to IEEE-754 doubles. An overflowing literal such as `1e400` is therefore finite here but Infinity in JavaScript. Neither is NaN, so whether the sentiment is sent does not change.
- JsString.Take: counts Unicode scalar values, not UTF-16 code units, so a string with characters outside the Basic Multilingual Plane is cut at a different point than `slice(0, 500)` would cut it.
- JsString.Lower: lower-cases only the ASCII letters, while `toLowerCase` covers all of Unicode. No non-ASCII character lower-cases to exactly one of the letters in low, high or medium, so the urgency classification is the same.
- Pagination is not rendered when the page size is at least the total. That is a display rule of the list pages, not of the filter layer.

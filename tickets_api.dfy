/**
 * The list-request parameter record the filter mappers build, rebuilt from the keys the
 * two mappers emit. An absent key is `None`. `page` and `limit` are JavaScript numbers
 * that the filter layer only passes through, so they are modelled as `int`.
 */
module TicketsApi {
  import opened Wrappers
  import JsNumber

  /** The two sort fields the list endpoint accepts. */
  type SortBy = s: string | s == "title" || s == "createdAt" witness "createdAt"

  /** The two sort directions the list endpoint accepts. */
  type SortOrder = s: string | s == "asc" || s == "desc" witness "desc"

  datatype TicketListParams = TicketListParams(
    page: Option<int>,
    limit: Option<int>,
    status: Option<string>,
    search: Option<string>,
    category: Option<string>,
    sentiment: Option<JsNumber.Number>,
    urgency: Option<string>,
    sortBy: Option<SortBy>,
    sortOrder: Option<SortOrder>)
}

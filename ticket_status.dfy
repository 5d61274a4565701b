/** Ticket statuses as the API reports them, with their display labels and badge classes. */
module TicketStatus {
  import opened Wrappers

  datatype Status = Open | InProgress | Resolved | Closed {

    /** The string the API uses for this status. */
    function Value(): string {
      match this
      case Open => "OPEN"
      case InProgress => "IN_PROGRESS"
      case Resolved => "RESOLVED"
      case Closed => "CLOSED"
    }
  }

  /** Reads an API status string; `None` for a string that is not one of the four. */
  function ParseStatus(s: string): (r: Option<Status>)
    ensures r.Some? ==> r.value.Value() == s
    ensures r.None? ==> forall t: Status :: t.Value() != s
  {
    if s == "OPEN" then Some(Open)
    else if s == "IN_PROGRESS" then Some(InProgress)
    else if s == "RESOLVED" then Some(Resolved)
    else if s == "CLOSED" then Some(Closed)
    else None
  }

  const STATUS_LABELS: map<string, string> := map[
    Open.Value() := "Open",
    InProgress.Value() := "In progress",
    Resolved.Value() := "Resolved",
    Closed.Value() := "Closed"]

  /** The badge class for a closed ticket, and for any status the table does not know. */
  const MUTED_BADGE := "bg-muted text-muted-foreground"

  const STATUS_COLORS: map<string, string> := map[
    Open.Value() := "bg-blue-100 text-blue-800 dark:bg-blue-950/60 dark:text-blue-200",
    InProgress.Value() := "bg-amber-100 text-amber-800 dark:bg-amber-950/60 dark:text-amber-200",
    Resolved.Value() := "bg-emerald-100 text-emerald-800 dark:bg-emerald-950/60 dark:text-emerald-200",
    Closed.Value() := MUTED_BADGE]

  /** Both tables have exactly the four statuses as keys. */
  lemma TablesCoverStatuses(s: string)
    ensures s in STATUS_LABELS <==> ParseStatus(s).Some?
    ensures s in STATUS_COLORS <==> ParseStatus(s).Some?
  {
  }

  /**
   * `getStatusLabel`: a known status gets its table label, which always differs from
   * the status string itself; any other string is returned unchanged.
   */
  function GetStatusLabel(status: string): (text: string)
    ensures text == status <==> ParseStatus(status).None?
  {
    if status in STATUS_LABELS then STATUS_LABELS[status] else status
  }

  /**
   * `getStatusColorClass`: never empty; the muted badge exactly for CLOSED and for
   * every string that is not a known status.
   */
  function GetStatusColorClass(status: string): (cls: string)
    ensures cls != ""
    ensures cls == MUTED_BADGE <==> ParseStatus(status).None? || ParseStatus(status) == Some(Closed)
  {
    if status in STATUS_COLORS then STATUS_COLORS[status] else MUTED_BADGE
  }

  /** The four labels. */
  lemma StatusLabelTable()
    ensures GetStatusLabel("OPEN") == "Open"
    ensures GetStatusLabel("IN_PROGRESS") == "In progress"
    ensures GetStatusLabel("RESOLVED") == "Resolved"
    ensures GetStatusLabel("CLOSED") == "Closed"
  {
  }

  /** The badge classes: blue for OPEN, amber for IN_PROGRESS, emerald for RESOLVED, muted for CLOSED. */
  lemma StatusColorTable()
    ensures GetStatusColorClass("OPEN") == "bg-blue-100 text-blue-800 dark:bg-blue-950/60 dark:text-blue-200"
    ensures GetStatusColorClass("IN_PROGRESS") == "bg-amber-100 text-amber-800 dark:bg-amber-950/60 dark:text-amber-200"
    ensures GetStatusColorClass("RESOLVED") == "bg-emerald-100 text-emerald-800 dark:bg-emerald-950/60 dark:text-emerald-200"
    ensures GetStatusColorClass("CLOSED") == MUTED_BADGE
  {
  }

  /** Distinct known statuses get distinct labels and distinct badge classes. */
  lemma KnownStatusesDistinguishable(a: Status, b: Status)
    requires a != b
    ensures GetStatusLabel(a.Value()) != GetStatusLabel(b.Value())
    ensures GetStatusColorClass(a.Value()) != GetStatusColorClass(b.Value())
  {
  }
}

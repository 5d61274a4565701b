/**
 * The urgency colouring of a ticket card: a text class for the urgency label and a
 * left-border class for the card, both chosen by the lower-cased urgency.
 */
module TicketCard {
  import opened Wrappers
  import opened JsString

  const MUTED_TEXT := "text-muted-foreground"
  const BORDER_BASE := "border-l-4 "
  const NEUTRAL_BORDER := BORDER_BASE + "border-l-border"

  const LOW_TEXT := "text-green-600 dark:text-green-400"
  const HIGH_TEXT := "text-red-600 dark:text-red-400"
  const MEDIUM_TEXT := "text-yellow-600 dark:text-yellow-400"
  const LOW_BORDER := BORDER_BASE + "border-l-green-600 dark:border-l-green-400"
  const HIGH_BORDER := BORDER_BASE + "border-l-red-600 dark:border-l-red-400"
  const MEDIUM_BORDER := BORDER_BASE + "border-l-yellow-600 dark:border-l-yellow-400"

  /** The urgencies that get a colour of their own. */
  predicate IsRecognisedUrgency(urgency: Option<string>) {
    urgency.Some? && Lower(urgency.value) in {"low", "high", "medium"}
  }

  /**
   * `urgencyColorClass`: a missing or empty urgency is muted; otherwise low, high and
   * medium in any letter case are green, red and yellow, and anything else is muted.
   */
  function UrgencyColorClass(urgency: Option<string>): (cls: string)
    ensures urgency == None || urgency == Some("") ==> cls == MUTED_TEXT
    ensures cls != MUTED_TEXT <==> IsRecognisedUrgency(urgency)
  {
    if urgency.None? || urgency.value == "" then MUTED_TEXT
    else
      var u := Lower(urgency.value);
      if u == "low" then LOW_TEXT
      else if u == "high" then HIGH_TEXT
      else if u == "medium" then MEDIUM_TEXT
      else MUTED_TEXT
  }

  /**
   * `urgencyBorderClass`: always a 4-pixel left border; neutral for a missing, empty or
   * unrecognised urgency, and coloured for low, high and medium in any letter case.
   */
  function UrgencyBorderClass(urgency: Option<string>): (cls: string)
    ensures BORDER_BASE <= cls
    ensures cls != NEUTRAL_BORDER <==> IsRecognisedUrgency(urgency)
  {
    if urgency.None? || urgency.value == "" then NEUTRAL_BORDER
    else
      var u := Lower(urgency.value);
      if u == "low" then LOW_BORDER
      else if u == "high" then HIGH_BORDER
      else if u == "medium" then MEDIUM_BORDER
      else NEUTRAL_BORDER
  }

  /** low is green, high is red and medium is yellow, in both classes and in any letter case. */
  lemma UrgencyColours(s: string)
    ensures Lower(s) == "low" ==> UrgencyColorClass(Some(s)) == LOW_TEXT && UrgencyBorderClass(Some(s)) == LOW_BORDER
    ensures Lower(s) == "high" ==> UrgencyColorClass(Some(s)) == HIGH_TEXT && UrgencyBorderClass(Some(s)) == HIGH_BORDER
    ensures Lower(s) == "medium" ==> UrgencyColorClass(Some(s)) == MEDIUM_TEXT && UrgencyBorderClass(Some(s)) == MEDIUM_BORDER
  {
  }

  /** Letter case does not matter: urgencies equal up to case get the same classes. */
  lemma CaseInsensitive(s: string, t: string)
    requires Lower(s) == Lower(t)
    ensures UrgencyColorClass(Some(s)) == UrgencyColorClass(Some(t))
    ensures UrgencyBorderClass(Some(s)) == UrgencyBorderClass(Some(t))
  {
    assert |s| == |t|;
  }

  /**
   * The border colour matches the text colour: two urgencies get the same text class
   * exactly when they get the same border class.
   */
  lemma BorderMatchesText(a: Option<string>, b: Option<string>)
    ensures UrgencyColorClass(a) == UrgencyColorClass(b) <==> UrgencyBorderClass(a) == UrgencyBorderClass(b)
  {
  }
}

/**
 * The admin dashboard's display rules: the badge class of a priority and
 * of a status, the options of the status drop-down, and the statistics
 * record shown before the first fetch. Complaint detail pages use the same
 * two badge mappings.
 */
module AdminDashboard {
  import opened Wrappers
  import opened Vocabulary
  import opened Store

  /** `getPriorityClass`: a class for each of the three priorities, `''` for any other string. */
  function GetPriorityClass(priority: string): (c: string)
    ensures c != "" <==> ParsePriority(priority).Some?
  {
    match priority
    case "High" => "priority-high"
    case "Medium" => "priority-medium"
    case "Low" => "priority-low"
    case _ => ""
  }

  /** `getStatusClass`: Resolved and Closed share a class; `''` for any string outside the enum. */
  function GetStatusClass(status: string): (c: string)
    ensures c != "" <==> ParseStatus(status).Some?
    ensures c == "status-resolved" <==> status == "Resolved" || status == "Closed"
  {
    match status
    case "Pending" => "status-pending"
    case "In Progress" => "status-progress"
    case "Resolved" => "status-resolved"
    case "Closed" => "status-resolved"
    case "Escalated" => "status-escalated"
    case _ => ""
  }

  /** The three priorities get three different classes. */
  lemma PriorityClassesDistinct(p: Priority, q: Priority)
    ensures GetPriorityClass(PriorityName(p)) != ""
    ensures GetPriorityClass(PriorityName(p)) == GetPriorityClass(PriorityName(q)) <==> p == q
  {
  }

  /** Two statuses share a badge class exactly when they are equal or are Resolved and Closed. */
  lemma StatusClassesGroupResolved(s: Status, t: Status)
    ensures GetStatusClass(StatusName(s)) != ""
    ensures GetStatusClass(StatusName(s)) == GetStatusClass(StatusName(t)) <==>
              s == t || ({s, t} == {Resolved, Closed})
  {
  }

  /** The values of the status `<select>`. */
  const STATUS_OPTIONS: seq<string> := ["Pending", "In Progress", "Resolved", "Closed", "Escalated"]

  /**
   * The drop-down offers each status of the schema's ENUM exactly once and
   * nothing else, so every choice reaches the update handler as a status.
   */
  lemma StatusOptionsAreTheEnum()
    ensures |STATUS_OPTIONS| == |ALL_STATUSES|
    ensures forall i, j :: 0 <= i < j < |STATUS_OPTIONS| ==> STATUS_OPTIONS[i] != STATUS_OPTIONS[j]
    ensures forall o :: o in STATUS_OPTIONS ==> ParseStatus(o).Some?
    ensures forall s :: s in ALL_STATUSES ==> StatusName(s) in STATUS_OPTIONS
  {
    assert |ALL_STATUSES| == 5 by {
      assert ALL_STATUSES == {Pending} + {InProgress} + {Resolved} + {Closed} + {Escalated};
    }
  }

  /** `useState({ totalUsers: 0, ... })`: all eight counters start at zero. */
  const INITIAL_STATS: StatsRecord := StatsRecord(0, 0, 0, 0, 0, 0, 0, 0)

  /** The initial record is what the statistics endpoint reports for an empty database. */
  lemma InitialStatsAreEmptyDatabase()
    ensures INITIAL_STATS == StatsOf([], [])
  {
  }
}

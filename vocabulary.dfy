/**
 * The closed vocabularies of the `users` and `complaints` tables: the
 * `priority`, `status` and `role` ENUM columns, and the exact strings MySQL
 * stores and the JSON API carries for each member.
 */
module Vocabulary {
  import opened Wrappers

  /** `priority ENUM('High', 'Medium', 'Low') DEFAULT 'Low'` */
  datatype Priority = High | Medium | Low

  /** `status ENUM('Pending', 'In Progress', 'Resolved', 'Closed', 'Escalated') DEFAULT 'Pending'` */
  datatype Status = Pending | InProgress | Resolved | Closed | Escalated

  /** `role ENUM('citizen', 'officer', 'admin') DEFAULT 'citizen'` */
  datatype Role = Citizen | Officer | Admin

  const DEFAULT_STATUS: Status := Pending
  const DEFAULT_ROLE: Role := Citizen

  const ALL_STATUSES: set<Status> := {Pending, InProgress, Resolved, Closed, Escalated}

  function PriorityName(p: Priority): string
  {
    match p
    case High => "High"
    case Medium => "Medium"
    case Low => "Low"
  }

  function StatusName(s: Status): string
  {
    match s
    case Pending => "Pending"
    case InProgress => "In Progress"
    case Resolved => "Resolved"
    case Closed => "Closed"
    case Escalated => "Escalated"
  }

  /** The enum member whose stored string is `t`, if any. */
  function ParsePriority(t: string): (p: Option<Priority>)
    ensures p.Some? ==> PriorityName(p.value) == t
  {
    if t == "High" then Some(High)
    else if t == "Medium" then Some(Medium)
    else if t == "Low" then Some(Low)
    else None
  }

  /** The enum member whose stored string is `t`, if any. */
  function ParseStatus(t: string): (s: Option<Status>)
    ensures s.Some? ==> StatusName(s.value) == t
  {
    if t == "Pending" then Some(Pending)
    else if t == "In Progress" then Some(InProgress)
    else if t == "Resolved" then Some(Resolved)
    else if t == "Closed" then Some(Closed)
    else if t == "Escalated" then Some(Escalated)
    else None
  }

  /** Every enum member's string parses back to that member. */
  lemma NamesRoundTrip(p: Priority, s: Status)
    ensures ParsePriority(PriorityName(p)) == Some(p)
    ensures ParseStatus(StatusName(s)) == Some(s)
  {
  }

  /** Distinct statuses are stored as distinct strings. */
  lemma StatusNameInjective(s: Status, t: Status)
    ensures StatusName(s) == StatusName(t) <==> s == t
  {
    NamesRoundTrip(Low, s);
    NamesRoundTrip(Low, t);
  }

  /** The urgency order `Low < Medium < High`. */
  function Rank(p: Priority): (n: nat)
    ensures n <= 2
  {
    match p
    case Low => 0
    case Medium => 1
    case High => 2
  }
}

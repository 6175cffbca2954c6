/**
 * The citizen dashboard's summary cards: four counters computed from the
 * caller's complaint list.
 */
module Dashboard {
  import opened Wrappers
  import opened Vocabulary
  import opened Store
  import opened Wire

  datatype DashStats = DashStats(total: nat, pending: nat, inProgress: nat, resolved: nat)

  /** The state before the first fetch. */
  const INITIAL_STATS: DashStats := DashStats(0, 0, 0, 0)

  /** `complaints.filter(c => names includes c.status).length` */
  function CountStatusNamed(cs: seq<ComplaintJson>, names: set<string>): (n: nat)
    ensures n <= |cs|
  {
    if cs == [] then 0
    else (if cs[0].status in names then 1 else 0) + CountStatusNamed(cs[1..], names)
  }

  /** A card shows zero iff none of the complaints has one of its statuses. */
  lemma {:induction false} CountStatusNamedZero(cs: seq<ComplaintJson>, names: set<string>)
    ensures CountStatusNamed(cs, names) == 0 <==> forall i :: 0 <= i < |cs| ==> cs[i].status !in names
  {
    if cs != [] {
      CountStatusNamedZero(cs[1..], names);
      assert forall i :: 1 <= i < |cs| ==> cs[i] == cs[1..][i - 1];
    }
  }

  /** The statuses the four cards do not count (`Escalated`, or anything unexpected). */
  function CountOther(cs: seq<ComplaintJson>): (n: nat)
    ensures n <= |cs|
  {
    if cs == [] then 0
    else (if cs[0].status !in {"Pending", "In Progress", "Resolved", "Closed"} then 1 else 0) + CountOther(cs[1..])
  }

  /** The record `fetchComplaints` stores after a successful fetch. */
  function ComputeStats(cs: seq<ComplaintJson>): (s: DashStats)
    ensures s.total == |cs|
    ensures s.pending + s.inProgress + s.resolved + CountOther(cs) == s.total
    ensures s.pending + s.inProgress + s.resolved <= s.total
  {
    CardsPartition(cs);
    DashStats(
      total := |cs|,
      pending := CountStatusNamed(cs, {"Pending"}),
      inProgress := CountStatusNamed(cs, {"In Progress"}),
      resolved := CountStatusNamed(cs, {"Resolved", "Closed"}))
  }

  /** Every complaint falls in exactly one of the three cards or in none of them. */
  lemma {:induction false} CardsPartition(cs: seq<ComplaintJson>)
    ensures CountStatusNamed(cs, {"Pending"}) + CountStatusNamed(cs, {"In Progress"})
            + CountStatusNamed(cs, {"Resolved", "Closed"}) + CountOther(cs) == |cs|
  {
    if cs != [] {
      CardsPartition(cs[1..]);
    }
  }

  /** `fetchComplaints`: the new counters on success; on failure the stats stay as they were. */
  function FetchComplaints(current: DashStats, response: Option<seq<ComplaintJson>>): (s: DashStats)
    ensures response.None? ==> s == current
    ensures response.Some? ==> s == ComputeStats(response.value)
  {
    match response
    case None => current
    case Some(cs) => ComputeStats(cs)
  }

  /** A failed first fetch leaves every card at zero. */
  lemma FailedFirstFetchShowsZeros()
    ensures FetchComplaints(INITIAL_STATS, None) == DashStats(0, 0, 0, 0)
  {
  }

  /**
   * On the rows the server sends, the cards count what the server's own
   * `COUNT(*)` queries count: `resolved` groups Resolved and Closed in both,
   * and what no card counts is the Escalated rows.
   */
  lemma {:induction false} CardsAgreeWithServer(rows: seq<ComplaintRow>)
    ensures var s := ComputeStats(ToJsonAll(rows));
      && s.total == |rows|
      && s.pending == CountStatus(rows, {Pending})
      && s.inProgress == CountStatus(rows, {InProgress})
      && s.resolved == CountStatus(rows, {Resolved, Closed})
      && CountOther(ToJsonAll(rows)) == CountStatus(rows, {Escalated})
  {
    if rows != [] {
      CardsAgreeWithServer(rows[1..]);
      assert ToJsonAll(rows)[1..] == ToJsonAll(rows[1..]);
      var st := rows[0].status;
      assert ToJsonAll(rows)[0].status == StatusName(st);
      match st
      case Pending =>
      case InProgress =>
      case Resolved =>
      case Closed =>
      case Escalated =>
    }
  }
}

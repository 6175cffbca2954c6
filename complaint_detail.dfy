/**
 * The complaint detail page: which optional rows and which entries of the
 * status timeline are shown for a complaint. Its two badge mappings are the
 * admin dashboard's (`AdminDashboard.GetPriorityClass`, `GetStatusClass`).
 */
module ComplaintDetail {
  import opened Wrappers
  import opened Vocabulary
  import opened Store
  import opened Http
  import opened Wire
  import opened AdminDashboard

  /** What an entry shows as its time: a timestamp, or the text "In progress". */
  datatype When = At(time: nat) | InProgressText

  datatype TimelineEntry =
    | SubmittedEntry(at: nat)
    | StatusEntry(status: string, when: When)
    | ResolvedEntry(at: nat)

  /** The Location row appears when `location` is truthy: set and not empty. */
  function ShowsLocation(c: ComplaintJson): (b: bool)
    ensures b <==> c.location.Some? && |c.location.value| > 0
  {
    Present(c.location)
  }

  /**
   * The Last Updated row appears when `updated_at` is set, and then the
   * timeline's status entry shows that same time; otherwise the entry reads
   * "In progress".
   */
  function ShowsLastUpdated(c: ComplaintJson): (b: bool)
    ensures b <==> c.updatedAt.Some?
    ensures b ==> forall e :: e in Timeline(c) && e.StatusEntry? ==> e.when == At(c.updatedAt.value)
    ensures !b ==> forall e :: e in Timeline(c) && e.StatusEntry? ==> e.when == InProgressText
  {
    c.updatedAt.Some?
  }

  /**
   * The status timeline: "Complaint Submitted" always, first; a
   * "Status: ..." entry unless the status is Pending, timed by `updated_at`
   * or reading "In progress"; "Complaint Resolved" when the status is
   * Resolved or Closed and `resolved_at` is set.
   */
  function Timeline(c: ComplaintJson): (t: seq<TimelineEntry>)
    ensures 1 <= |t| <= 3 && t[0] == SubmittedEntry(c.createdAt)
    ensures |t| == 1 + (if c.status != "Pending" then 1 else 0)
                     + (if (c.status == "Resolved" || c.status == "Closed") && c.resolvedAt.Some? then 1 else 0)
    ensures (exists k :: 1 <= k < |t| && t[k].StatusEntry?) <==> c.status != "Pending"
    ensures forall k :: 1 <= k < |t| && t[k].StatusEntry? ==>
              t[k].status == c.status
              && t[k].when == (if c.updatedAt.Some? then At(c.updatedAt.value) else InProgressText)
    ensures (exists k :: 1 <= k < |t| && t[k].ResolvedEntry?) <==>
              (c.status == "Resolved" || c.status == "Closed") && c.resolvedAt.Some?
    ensures forall k :: 1 <= k < |t| && t[k].ResolvedEntry? ==> k == |t| - 1 && c.resolvedAt == Some(t[k].at)
    ensures forall k :: 1 <= k < |t| ==> !t[k].SubmittedEntry?
  {
    var submitted := [SubmittedEntry(c.createdAt)];
    var status :=
      if c.status != "Pending" then
        [StatusEntry(c.status, if c.updatedAt.Some? then At(c.updatedAt.value) else InProgressText)]
      else [];
    var resolved :=
      if (c.status == "Resolved" || c.status == "Closed") && c.resolvedAt.Some? then [ResolvedEntry(c.resolvedAt.value)]
      else [];
    var t := submitted + status + resolved;
    assert forall k :: 1 <= k < |t| && t[k].StatusEntry? ==> t[k] == status[0];
    assert forall k :: 1 <= k < |t| && t[k].ResolvedEntry? ==> t[k] == resolved[0];
    assert status != [] ==> t[1] == status[0];
    assert resolved != [] ==> t[|t| - 1] == resolved[0];
    t
  }

  /**
   * No write of either back end sets `resolved_at`, so the "Complaint
   * Resolved" entry never appears for a stored complaint, even one that is
   * Resolved or Closed.
   */
  lemma NoResolvedEntryForStoredComplaints(db: Database, row: ComplaintRow)
    requires db.Valid()
    requires row in db.complaints
    ensures var t := Timeline(ToJson(row));
      forall k :: 0 <= k < |t| ==> !t[k].ResolvedEntry?
  {
  }

  /**
   * After a status update to anything but Pending, the updated complaint's
   * timeline has a status entry naming the new status at the update time.
   */
  lemma UpdatedComplaintShowsStatusEntry(rows: seq<ComplaintRow>, id: int, status: Status, now: nat, k: int)
    requires status != Pending
    requires 0 <= k < |rows| && rows[k].id == id
    ensures ShowsLastUpdated(ToJson(SetStatus(rows, id, status, now)[k]))
    ensures var t := Timeline(ToJson(SetStatus(rows, id, status, now)[k]));
      exists e :: e in t && e == StatusEntry(StatusName(status), At(now))
  {
    SetStatusChangesOnlyTarget(rows, id, status, now);
    var c := ToJson(SetStatus(rows, id, status, now)[k]);
    assert c.status == StatusName(status) && c.updatedAt == Some(now);
    var t := Timeline(c);
    assert StatusName(status) != "Pending";
    var j :| 1 <= j < |t| && t[j].StatusEntry?;
    assert t[j] in t;
  }

  /**
   * For every complaint row the API sends, the Location row appears iff a
   * non-empty location is stored, and the Last Updated row iff `updated_at`
   * is set.
   */
  lemma OptionalRowsOfEveryComplaint(row: ComplaintRow)
    ensures ShowsLocation(ToJson(row)) <==> row.location.Some? && row.location.value != ""
    ensures ShowsLastUpdated(ToJson(row)) <==> row.updatedAt.Some?
  {
  }

  /** After any status update, Pending included, the updated complaint shows Last Updated at the update time. */
  lemma UpdatedComplaintShowsLastUpdated(rows: seq<ComplaintRow>, id: int, status: Status, now: nat, k: int)
    requires 0 <= k < |rows| && rows[k].id == id
    ensures ShowsLastUpdated(ToJson(SetStatus(rows, id, status, now)[k]))
    ensures ToJson(SetStatus(rows, id, status, now)[k]).updatedAt == Some(now)
  {
    SetStatusChangesOnlyTarget(rows, id, status, now);
  }

  /**
   * A complaint as submission stores it (Pending, never updated) shows only
   * the "Complaint Submitted" entry and no Last Updated row, and shows the
   * Location row exactly when a non-empty location was given.
   */
  lemma NewComplaintDetail(row: ComplaintRow)
    requires row.status == DEFAULT_STATUS && row.updatedAt.None? && row.resolvedAt.None?
    ensures Timeline(ToJson(row)) == [SubmittedEntry(row.createdAt)]
    ensures !ShowsLastUpdated(ToJson(row))
    ensures ShowsLocation(ToJson(row)) <==> row.location.Some? && row.location.value != ""
  {
  }

  /** Every stored complaint gets a non-empty priority badge and status badge. */
  lemma StoredComplaintsHaveBadges(row: ComplaintRow)
    ensures GetPriorityClass(ToJson(row).priority) != ""
    ensures GetStatusClass(ToJson(row).status) != ""
  {
  }
}

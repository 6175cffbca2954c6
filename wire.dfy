/**
 * A complaint row as the JSON API delivers it to the React pages
 * (`res.json({ complaints })`): the ENUM columns become their stored
 * strings, nullable columns become `null` or a value, and timestamps keep
 * the database clock's value.
 */
module Wire {
  import opened Wrappers
  import opened Vocabulary
  import opened Store

  datatype ComplaintJson = ComplaintJson(
    id: nat, userId: nat, title: string, description: string, category: string, location: Option<string>,
    priority: string, status: string,
    createdAt: nat, updatedAt: Option<nat>, resolvedAt: Option<nat>)

  /**
   * The JSON object of one row: every column the handlers select is carried
   * over, and the enum strings parse back to the row's members.
   */
  function ToJson(row: ComplaintRow): (j: ComplaintJson)
    ensures ParseStatus(j.status) == Some(row.status)
    ensures ParsePriority(j.priority) == Some(row.priority)
    ensures j.id == row.id && j.userId == row.userId
    ensures j.title == row.title && j.description == row.description
    ensures j.category == row.category && j.location == row.location
    ensures j.createdAt == row.createdAt && j.updatedAt == row.updatedAt && j.resolvedAt == row.resolvedAt
  {
    NamesRoundTrip(row.priority, row.status);
    ComplaintJson(row.id, row.userId, row.title, row.description, row.category, row.location,
                  PriorityName(row.priority), StatusName(row.status),
                  row.createdAt, row.updatedAt, row.resolvedAt)
  }

  /**
   * The `complaints` array of a response, in the response's order: the k-th
   * object's id is the k-th row's, and its status and priority strings
   * parse back to that row's members.
   */
  function ToJsonAll(rows: seq<ComplaintRow>): (js: seq<ComplaintJson>)
    ensures |js| == |rows|
    ensures forall k :: 0 <= k < |rows| ==> js[k] == ToJson(rows[k])
    ensures forall k :: 0 <= k < |js| ==>
              js[k].id == rows[k].id
              && ParseStatus(js[k].status) == Some(rows[k].status)
              && ParsePriority(js[k].priority) == Some(rows[k].priority)
  {
    seq(|rows|, k requires 0 <= k < |rows| => ToJson(rows[k]))
  }

  /** Serialising two lists of rows one after the other is serialising their concatenation. */
  lemma ToJsonAllAppend(a: seq<ComplaintRow>, b: seq<ComplaintRow>)
    ensures ToJsonAll(a + b) == ToJsonAll(a) + ToJsonAll(b)
  {
    assert forall k :: 0 <= k < |a + b| ==> ToJsonAll(a + b)[k] == (ToJsonAll(a) + ToJsonAll(b))[k];
  }
}

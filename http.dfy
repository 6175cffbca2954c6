/**
 * What a request handler returns: an HTTP status code and a JSON body.
 * Shared by the Express server and the Flask app.
 */
module Http {
  import opened Wrappers
  import opened Vocabulary
  import opened Credentials
  import opened Store

  /** A request field is usable when it is present and not the empty string (JS and Python truthiness). */
  predicate Present(field: Option<string>)
  {
    field.Some? && field.value != ""
  }

  datatype Body =
    | Message(text: string)
    | Error(text: string)
      /** `{ token, user }`: the token is the signature of `claims`. */
    | LoginOk(claims: Claims, user: UserRow)
    | Submitted(complaintId: nat, priority: Priority)
    | Complaints(rows: seq<ComplaintRow>)
    | AdminComplaints(joined: seq<JoinedRow>)
    | OneComplaint(row: ComplaintRow)
    | StatsBody(stats: StatsRecord)

  datatype Response = Response(code: int, body: Body)

  /** The outcome of the bearer-token middleware. */
  datatype AuthResult = MissingToken | InvalidToken | Authenticated(userId: int)
}

/**
 * The Flask back end. Its handlers issue the same statements as the
 * Express server's: `register` and `login` are `Handlers.Register` and
 * `Handlers.Login`, and the three routes behind `jwt_required` run the
 * shared handlers as the token's identity. What is its own is the Python
 * classifier, which tests the high keywords and the high categories in two
 * separate steps.
 */
module FlaskApp {
  import opened Wrappers
  import opened Vocabulary
  import opened Text
  import opened Store
  import opened Http
  import opened NodeServer
  import Handlers

  /** `assign_priority`: keywords first, then the category, then the medium keywords. */
  function AssignPriorityPy(complaintText: string, category: string): (p: Priority)
    ensures p == AssignPriority(complaintText, category)
    ensures p == Medium ==> !HasHighKeyword(complaintText) && !IsHighCategory(category)
    ensures p == Low ==> !HasHighKeyword(complaintText) && !IsHighCategory(category) && !HasMediumKeyword(complaintText)
  {
    var complaintLower := Lower(complaintText);
    if AnyContains(complaintLower, HIGH_KEYWORDS) then High
    else if Lower(category) in HIGH_CATEGORIES then High
    else if AnyContains(complaintLower, MEDIUM_KEYWORDS) then Medium
    else Low
  }

  /**
   * `submit_complaint`: 400 and no write unless title, description and
   * category are all given; otherwise one Pending row owned by the identity,
   * with the Python classifier's priority, which the response repeats. The
   * insert fails with 500 when the identity is no user or a value is too
   * long for its column.
   */
  method SubmitComplaint(db: Database, identity: int, title: Option<string>, description: Option<string>,
                         category: Option<string>, location: Option<string>, elapsed: nat)
      returns (resp: Response)
    requires db.Valid()
    modifies db
    ensures db.Valid()
    ensures !(Present(title) && Present(description) && Present(category)) ==>
              resp == Response(400, Error("Title, description, and category are required")) && unchanged(db)
    ensures resp.code == 201 <==>
              Present(title) && Present(description) && Present(category) && identity in UserIds(old(db.users))
              && ComplaintFits(title.value, category.value, location)
    ensures resp.code == 201 ==>
              && identity >= 0
              && resp.body == Submitted(old(db.nextComplaintId), AssignPriorityPy(description.value, category.value))
              && db.complaints == old(db.complaints) + [ComplaintRow(
                   old(db.nextComplaintId), identity as nat, title.value, description.value, category.value,
                   location, AssignPriorityPy(description.value, category.value), Pending, db.clock, None, None)]
              && db.nextComplaintId == old(db.nextComplaintId) + 1
              && db.clock == old(db.clock) + elapsed
    ensures resp.code == 201 ==> GetComplaint(db, identity, old(db.nextComplaintId)).code == 200
    ensures resp.code == 500 <==>
              Present(title) && Present(description) && Present(category)
              && !(identity in UserIds(old(db.users)) && ComplaintFits(title.value, category.value, location))
    ensures resp.code != 201 ==> db.complaints == old(db.complaints) && db.nextComplaintId == old(db.nextComplaintId)
    ensures db.users == old(db.users) && db.nextUserId == old(db.nextUserId)
  {
    resp := Handlers.SubmitComplaint(db, Authenticated(identity), title, description, category, location, elapsed);
  }

  /** `get_complaints`: exactly the identity's complaints, each once as stored, newest first. */
  function GetComplaints(db: Database, identity: int): (r: Response)
    reads db
    requires db.Valid()
    ensures r.code == 200 && r.body.Complaints?
    ensures NewestFirst(r.body.rows)
    ensures multiset(r.body.rows) == multiset(OwnedBy(db.complaints, identity))
    ensures forall x :: x in r.body.rows <==> x in db.complaints && x.userId == identity
  {
    Handlers.GetComplaints(db, Authenticated(identity))
  }

  /** `get_complaint`: 404 unless a complaint has both the id and the identity as owner. */
  function GetComplaint(db: Database, identity: int, complaintId: int): (r: Response)
    reads db
    requires db.Valid()
    ensures r.code == 404 <==> !exists x :: x in db.complaints && x.id == complaintId && x.userId == identity
    ensures r.code == 404 ==> r == Response(404, Error("Complaint not found"))
    ensures r.code != 404 ==>
              r.code == 200 && r.body.OneComplaint? && r.body.row in db.complaints
              && r.body.row.id == complaintId && r.body.row.userId == identity
  {
    Handlers.GetComplaint(db, Authenticated(identity), complaintId)
  }
}

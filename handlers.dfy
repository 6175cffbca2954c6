/**
 * The request handlers of the two back ends. The Express server and the
 * Flask app run the same statements against the same tables, so each
 * handler is written once here, over the `Database` and over the outcome
 * of the authentication step in front of it: the bearer middleware of the
 * Express server (`NodeServer.AuthenticateToken`), or, for the Flask app,
 * `Authenticated(identity)` once `jwt_required` has let the request through.
 */
module Handlers {
  import opened Wrappers
  import opened Vocabulary
  import opened Credentials
  import opened Store
  import opened Http
  import opened NodeServer

  // ------------------------------------------------------------- helpers

  /** What the middleware answers when it stops a request. */
  function AuthFailure(auth: AuthResult): (r: Response)
    requires !auth.Authenticated?
    ensures r.body.Error?
    ensures r.code == 401 <==> auth.MissingToken?
    ensures r.code == 403 <==> auth.InvalidToken?
  {
    if auth.MissingToken? then Response(401, Error("Access token required"))
    else Response(403, Error("Invalid or expired token"))
  }

  /** Some account has this email and was registered with this password. */
  ghost predicate HasAccount(users: seq<UserRow>, email: string, password: string)
  {
    exists u :: u in users && u.email == email && CheckPassword(password, u.password)
  }

  /** Some administrator account has this email and this password. */
  ghost predicate HasAdminAccount(users: seq<UserRow>, email: string, password: string)
  {
    exists u :: u in users && u.email == email && u.role == Admin && CheckPassword(password, u.password)
  }

  /** Under the UNIQUE index, the first row with an email is the only one. */
  lemma OnlyRowWithEmail(users: seq<UserRow>, u: UserRow)
    requires UniqueEmails(users)
    requires u in users
    ensures forall v :: v in users && v.email == u.email ==> v == u
  {
    forall v | v in users && v.email == u.email ensures v == u {
      EmailIdentifiesUser(users, u, v);
    }
  }

  // ------------------------------------------------------------ accounts

  /**
   * `POST /api/register`: all of name, email, phone and password are
   * needed; a taken email is refused; otherwise a citizen account is added
   * with the bcrypt hash of the password, after which logging in with that
   * email and password succeeds. A value too long for its column makes the
   * insert fail with 500.
   */
  method Register(db: Database, name: Option<string>, email: Option<string>, phone: Option<string>,
                  password: Option<string>, address: Option<string>, salt: nat, elapsed: nat)
      returns (resp: Response)
    requires db.Valid()
    modifies db
    ensures db.Valid()
    ensures !(Present(name) && Present(email) && Present(phone) && Present(password)) ==>
              resp == Response(400, Error("All fields are required")) && unchanged(db)
    ensures Present(name) && Present(email) && Present(phone) && Present(password)
            && EmailTaken(old(db.users), email.value) ==>
              resp == Response(400, Error("Email already registered")) && unchanged(db)
    ensures resp.code == 201 <==>
              Present(name) && Present(email) && Present(phone) && Present(password)
              && !EmailTaken(old(db.users), email.value) && UserFits(name.value, email.value, phone.value)
    ensures resp.code == 201 ==>
              && resp == Response(201, Message("Registration successful"))
              && db.users == old(db.users) + [UserRow(old(db.nextUserId), name.value, email.value, phone.value,
                                                      HashPassword(password.value, salt), address, DEFAULT_ROLE, db.clock)]
              && db.nextUserId == old(db.nextUserId) + 1
              && db.clock == old(db.clock) + elapsed
    ensures resp.code == 201 ==> Login(db, email, password).code == 200
    ensures resp.code == 500 <==>
              Present(name) && Present(email) && Present(phone) && Present(password)
              && !EmailTaken(old(db.users), email.value) && !UserFits(name.value, email.value, phone.value)
    ensures resp.code == 500 ==>
              && resp == Response(500, Error("Registration failed"))
              && db.users == old(db.users) && db.nextUserId == old(db.nextUserId)
              && db.clock == old(db.clock) + elapsed
    ensures db.complaints == old(db.complaints) && db.nextComplaintId == old(db.nextComplaintId)
  {
    if !(Present(name) && Present(email) && Present(phone) && Present(password)) {
      return Response(400, Error("All fields are required"));
    }
    if db.UserByEmail(email.value).Some? {
      return Response(400, Error("Email already registered"));
    }
    var hashed := HashPassword(password.value, salt);
    var ok, id := db.InsertUser(name.value, email.value, phone.value, hashed, address, DEFAULT_ROLE, elapsed);
    if !ok {
      return Response(500, Error("Registration failed"));
    }
    resp := Response(201, Message("Registration successful"));
    assert db.users[|db.users| - 1].email == email.value;
  }

  /**
   * `POST /api/login`: both fields are needed; the answer is 401 unless an
   * account has that email and password, and then the token carries the
   * account's id and no role.
   */
  function Login(db: Database, email: Option<string>, password: Option<string>): (r: Response)
    reads db
    requires db.Valid()
    ensures (!Present(email) || !Present(password)) <==> r == Response(400, Error("Email and password are required"))
    ensures r.code == 401 <==> Present(email) && Present(password) && !HasAccount(db.users, email.value, password.value)
    ensures r.code == 401 ==> r == Response(401, Error("Invalid credentials"))
    ensures r.code == 200 <==> Present(email) && Present(password) && HasAccount(db.users, email.value, password.value)
    ensures r.code == 200 ==>
              && r.body.LoginOk?
              && r.body.user in db.users
              && r.body.user.email == email.value
              && CheckPassword(password.value, r.body.user.password)
              && r.body.claims == Claims(r.body.user.id, None)
  {
    if !Present(email) || !Present(password) then
      Response(400, Error("Email and password are required"))
    else
      match db.UserByEmail(email.value)
      case None => Response(401, Error("Invalid credentials"))
      case Some(u) =>
        OnlyRowWithEmail(db.users, u);
        if !CheckPassword(password.value, u.password) then Response(401, Error("Invalid credentials"))
        else Response(200, LoginOk(Claims(u.id, None), u))
  }

  /**
   * `POST /api/admin/login`: as the citizen login, but only an account
   * whose role is admin can succeed, and its token carries that role.
   */
  function AdminLogin(db: Database, email: Option<string>, password: Option<string>): (r: Response)
    reads db
    requires db.Valid()
    ensures (!Present(email) || !Present(password)) <==> r == Response(400, Error("Email and password are required"))
    ensures r.code == 401 <==>
              Present(email) && Present(password) && !HasAdminAccount(db.users, email.value, password.value)
    ensures r.code == 401 ==> r == Response(401, Error("Invalid admin credentials"))
    ensures r.code == 200 <==>
              Present(email) && Present(password) && HasAdminAccount(db.users, email.value, password.value)
    ensures r.code == 200 ==>
              && r.body.LoginOk?
              && r.body.user in db.users
              && r.body.user.email == email.value
              && r.body.user.role == Admin
              && CheckPassword(password.value, r.body.user.password)
              && r.body.claims == Claims(r.body.user.id, Some(Admin))
  {
    if !Present(email) || !Present(password) then
      Response(400, Error("Email and password are required"))
    else
      match db.AdminByEmail(email.value)
      case None => Response(401, Error("Invalid admin credentials"))
      case Some(u) =>
        OnlyRowWithEmail(db.users, u);
        if !CheckPassword(password.value, u.password) then Response(401, Error("Invalid admin credentials"))
        else Response(200, LoginOk(Claims(u.id, Some(u.role)), u))
  }

  /** The admin login refuses a citizen or officer account even with the right password, and accepts every admin. */
  lemma AdminLoginNeedsAdminRole(db: Database, u: UserRow, password: string)
    requires db.Valid()
    requires u in db.users && u.email != "" && password != ""
    ensures AdminLogin(db, Some(u.email), Some(password)).code == 200 <==>
              u.role == Admin && CheckPassword(password, u.password)
  {
    OnlyRowWithEmail(db.users, u);
  }

  // ---------------------------------------------------------- complaints

  /**
   * `POST /api/complaints`: after authentication, title, description and
   * category are needed; the complaint is stored as Pending with the
   * priority the classifier assigns, and the submitter can then read it
   * back. The insert fails with 500 when the token's user no longer exists
   * or a value is too long for its column.
   */
  method SubmitComplaint(db: Database, auth: AuthResult, title: Option<string>, description: Option<string>,
                         category: Option<string>, location: Option<string>, elapsed: nat)
      returns (resp: Response)
    requires db.Valid()
    modifies db
    ensures db.Valid()
    ensures !auth.Authenticated? ==> resp == AuthFailure(auth) && unchanged(db)
    ensures auth.Authenticated? && !(Present(title) && Present(description) && Present(category)) ==>
              resp == Response(400, Error("Title, description, and category are required")) && unchanged(db)
    ensures resp.code == 201 <==>
              auth.Authenticated? && Present(title) && Present(description) && Present(category)
              && auth.userId in UserIds(old(db.users)) && ComplaintFits(title.value, category.value, location)
    ensures resp.code == 201 ==>
              && resp.body == Submitted(old(db.nextComplaintId), AssignPriority(description.value, category.value))
              && auth.userId >= 0
              && db.complaints == old(db.complaints) + [ComplaintRow(
                   old(db.nextComplaintId), auth.userId as nat, title.value, description.value,
                   category.value, location, AssignPriority(description.value, category.value), DEFAULT_STATUS,
                   db.clock, None, None)]
              && db.nextComplaintId == old(db.nextComplaintId) + 1
              && db.clock == old(db.clock) + elapsed
    ensures resp.code == 201 ==> GetComplaint(db, auth, old(db.nextComplaintId)).code == 200
    ensures resp.code == 500 <==>
              auth.Authenticated? && Present(title) && Present(description) && Present(category)
              && !(auth.userId in UserIds(old(db.users)) && ComplaintFits(title.value, category.value, location))
    ensures resp.code == 500 ==> resp == Response(500, Error("Failed to submit complaint"))
    ensures resp.code != 201 ==> db.complaints == old(db.complaints) && db.nextComplaintId == old(db.nextComplaintId)
    ensures db.users == old(db.users) && db.nextUserId == old(db.nextUserId)
  {
    if !auth.Authenticated? {
      return AuthFailure(auth);
    }
    if !(Present(title) && Present(description) && Present(category)) {
      return Response(400, Error("Title, description, and category are required"));
    }
    var priority := AssignPriority(description.value, category.value);
    var ok, id := db.InsertComplaint(auth.userId, title.value, description.value, category.value,
                                     location, priority, DEFAULT_STATUS, elapsed);
    if !ok {
      return Response(500, Error("Failed to submit complaint"));
    }
    resp := Response(201, Submitted(id, priority));
  }

  /** `GET /api/complaints`: the caller's own complaints, newest first, all of them and no others. */
  function GetComplaints(db: Database, auth: AuthResult): (r: Response)
    reads db
    requires db.Valid()
    ensures !auth.Authenticated? ==> r == AuthFailure(auth)
    ensures auth.Authenticated? ==>
              && r.code == 200
              && r.body.Complaints?
              && NewestFirst(r.body.rows)
              && multiset(r.body.rows) == multiset(OwnedBy(db.complaints, auth.userId))
              && (forall x :: x in r.body.rows <==> x in db.complaints && x.userId == auth.userId)
  {
    if !auth.Authenticated? then AuthFailure(auth)
    else Response(200, Complaints(db.OwnComplaints(auth.userId)))
  }

  /** `GET /api/complaints/:id`: 404 unless the complaint exists and belongs to the caller. */
  function GetComplaint(db: Database, auth: AuthResult, id: int): (r: Response)
    reads db
    requires db.Valid()
    ensures !auth.Authenticated? ==> r == AuthFailure(auth)
    ensures auth.Authenticated? ==>
              (r.code == 404 <==> !exists x :: x in db.complaints && x.id == id && x.userId == auth.userId)
    ensures r.code == 404 ==> r == Response(404, Error("Complaint not found"))
    ensures auth.Authenticated? && r.code != 404 ==>
              && r.code == 200
              && r.body.OneComplaint?
              && r.body.row in db.complaints
              && r.body.row.id == id
              && r.body.row.userId == auth.userId
  {
    if !auth.Authenticated? then AuthFailure(auth)
    else
      match db.OwnComplaint(id, auth.userId)
      case None => Response(404, Error("Complaint not found"))
      case Some(row) => Response(200, OneComplaint(row))
  }

  /** Ids are primary keys: a caller never reads someone else's complaint, whatever id is asked for. */
  lemma NoComplaintOfAnotherUser(db: Database, uid: int, id: int)
    requires db.Valid()
    requires exists x :: x in db.complaints && x.id == id && x.userId != uid
    ensures GetComplaint(db, Authenticated(uid), id).code == 404
  {
    var x :| x in db.complaints && x.id == id && x.userId != uid;
    forall y | y in db.complaints && y.id == id ensures y == x {
      var i :| 0 <= i < |db.complaints| && db.complaints[i] == x;
      var j :| 0 <= j < |db.complaints| && db.complaints[j] == y;
      assert !(i < j) && !(j < i);
    }
  }

  // --------------------------------------------------------------- admin

  /**
   * `GET /api/admin/complaints`: every complaint with its submitter's
   * name, email and phone, newest first. Any authenticated caller gets it.
   */
  function AdminGetComplaints(db: Database, auth: AuthResult): (r: Response)
    reads db
    requires db.Valid()
    ensures !auth.Authenticated? ==> r == AuthFailure(auth)
    ensures auth.Authenticated? ==>
              && r.code == 200
              && r.body.AdminComplaints?
              && |r.body.joined| == |db.complaints|
              && NewestFirst(Project(r.body.joined))
              && multiset(Project(r.body.joined)) == multiset(db.complaints)
              && (forall j :: j in r.body.joined ==> JoinedWith(j, db.users))
  {
    if !auth.Authenticated? then AuthFailure(auth)
    else Response(200, AdminComplaints(db.AllComplaints()))
  }

  /**
   * `GET /api/admin/stats`: the eight counters, each its own count.
   * `resolved` groups Resolved and Closed, the status counters miss only
   * Escalated complaints, and the priority counters cover every complaint.
   */
  function AdminGetStats(db: Database, auth: AuthResult): (r: Response)
    reads db
    ensures !auth.Authenticated? ==> r == AuthFailure(auth)
    ensures auth.Authenticated? ==>
              && r.code == 200
              && r.body.StatsBody?
              && r.body.stats.totalComplaints == |db.complaints|
              && r.body.stats.totalUsers == CountRole(db.users, Citizen) <= |db.users|
              && r.body.stats.pending == CountStatus(db.complaints, {Pending})
              && r.body.stats.inProgress == CountStatus(db.complaints, {InProgress})
              && r.body.stats.resolved == CountStatus(db.complaints, {Resolved}) + CountStatus(db.complaints, {Closed})
              && r.body.stats.pending + r.body.stats.inProgress + r.body.stats.resolved
                   + CountStatus(db.complaints, {Escalated}) == |db.complaints|
              && r.body.stats.highPriority == CountPriority(db.complaints, High)
              && r.body.stats.mediumPriority == CountPriority(db.complaints, Medium)
              && r.body.stats.lowPriority == CountPriority(db.complaints, Low)
              && r.body.stats.highPriority + r.body.stats.mediumPriority + r.body.stats.lowPriority
                   == |db.complaints|
  {
    if !auth.Authenticated? then AuthFailure(auth)
    else
      StatsBuckets(db.users, db.complaints);
      Response(200, StatsBody(db.Stats()))
  }

  /**
   * `PUT /api/admin/complaints/:id/status`: a status is needed; the row
   * with that id gets it and a fresh `updated_at`, every other row and
   * field is left alone, and the answer is 200 even when no row has the id.
   */
  method UpdateComplaintStatus(db: Database, auth: AuthResult, id: int, status: Option<Status>, elapsed: nat)
      returns (resp: Response)
    requires db.Valid()
    modifies db
    ensures db.Valid()
    ensures !auth.Authenticated? ==> resp == AuthFailure(auth) && unchanged(db)
    ensures auth.Authenticated? && status.None? ==> resp == Response(400, Error("Status is required")) && unchanged(db)
    ensures auth.Authenticated? && status.Some? ==>
              && resp == Response(200, Message("Status updated successfully"))
              && db.clock == old(db.clock) + elapsed
              && db.complaints == SetStatus(old(db.complaints), id, status.value, db.clock)
              && db.users == old(db.users)
              && db.nextUserId == old(db.nextUserId) && db.nextComplaintId == old(db.nextComplaintId)
    ensures auth.Authenticated? && status.Some? ==>
              forall x :: x in db.complaints && x.id == id ==> x.status == status.value && x.updatedAt == Some(db.clock)
  {
    if !auth.Authenticated? {
      return AuthFailure(auth);
    }
    if status.None? {
      return Response(400, Error("Status is required"));
    }
    db.UpdateStatus(id, status.value, elapsed);
    resp := Response(200, Message("Status updated successfully"));
  }

  /**
   * The admin routes check only that the token verifies: a citizen's own
   * login token reads every complaint and the statistics.
   */
  lemma CitizenReadsAdminRoutes(db: Database, scheme: string, token: string,
                                verify: string -> Option<Claims>, id: int)
    requires db.Valid()
    requires ' ' !in scheme && ' ' !in token && token != ""
    requires verify(token) == Some(Claims(id, None))
    ensures var auth := AuthenticateToken(Some(scheme + " " + token), verify);
      && AdminGetComplaints(db, auth).code == 200
      && AdminGetStats(db, auth).code == 200
  {
    CitizenTokenPassesAdminGate(scheme, token, verify, id);
  }
}

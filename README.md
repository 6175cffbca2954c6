# Smart grievance system — verified model

This project models the core of a citizen grievance system. Citizens register,
log in and submit complaints. Each complaint gets a priority from a rule-based
classifier. Citizens read back their own complaints. Administrators log in
separately, list every complaint, read statistics and change statuses.

The system has two back ends over the same MySQL schema: an Express server
(`backend-node/server.js`) and a Flask app (`backend/app.py`). The React pages
add a few pure display rules on top.

Modules:

- `Vocabulary` (`vocabulary.dfy`): the `priority`, `status` and `role` ENUM
  columns, their defaults, and the strings stored for each member.
- `Text` (`text.dfy`): ASCII lower-casing, substring search and
  `keywords.some(k => s.includes(k))`. It also holds `split(' ')` with its
  join inverse.
- `Credentials` (`credentials.dfy`): bcrypt as a symbolic hash, and the claims
  a JWT carries.
- `Store` (`store.dfy`): the `users` and `complaints` tables as the class
  `Database`. Its functions and methods are the SQL statements the handlers
  issue. Pure functions and lemmas before the class say what the selects,
  joins, counts and the status update compute.
- `Http` (`http.dfy`): responses, request-field truthiness, and the outcome
  of authentication.
- `NodeServer` (`node_server.dfy`):
  - `assignPriority`;
  - the bearer-token middleware `authenticateToken`.
- `Handlers` (`handlers.dfy`): the request handlers. Both back ends run the
  same statements, so each handler is written once. It takes the database
  and the outcome of the authentication step in front of it.
  - The Express routes pass `NodeServer.AuthenticateToken(header, verify)`.
  - The Flask routes pass `Authenticated(get_jwt_identity())`.
- `FlaskApp` (`flask_app.dfy`): the Python `assign_priority`, proved equal
  to the Node classifier. It also holds the three routes behind
  `jwt_required`, which run the shared handlers as the token's identity.
  Flask's `register` and `login` are `Handlers.Register` and `Handlers.Login`.
- `Wire` (`wire.dfy`): a complaint row as the JSON API delivers it to the
  pages.
- `Dashboard`, `AdminDashboard`, `ComplaintDetail`: the status counters, the
  badge classes, the status drop-down, the initial statistics, and the
  timeline and optional-row visibility rules.

Environment inputs are parameters:

- The bcrypt salt.
- The JWT verifier (`verify: string -> Option<Claims>`). It returns `None`
  for a bad signature or an expired token.
- The time that passes before each write (`elapsed`). `NOW()` is a clock
  in `Database` that only moves forward.

Request fields are `Option<string>`. A field counts as given when it is
present and not `""`, as JavaScript and Python truthiness have it.

Two consequences of the code are stated as lemmas:

- "no issues here" with category "Water Supply" is Medium, not Low, because
  "issue" is a raw substring of the text and "water supply" is not a high
  category (`NodeServer.NoIssuesHereIsMedium`).
- The admin routes check no role. They check only that the token verifies,
  and read only its `id`, so a citizen's login token reads every complaint
  and the statistics (`Handlers.CitizenReadsAdminRoutes`).

Inserts follow MySQL's default strict SQL mode: a value longer than its
`VARCHAR` column makes the INSERT fail, and the handler answers 500.

## Model

| member | source | states |
|---|---|---|
| Vocabulary.ParsePriority | backend-node/server.js:80 | a string parses to a priority only if it is that priority's stored ENUM string |
| Vocabulary.ParseStatus | backend-node/server.js:81 | a string parses to a status only if it is that status's stored ENUM string |
| Vocabulary.NamesRoundTrip | backend-node/server.js:80-81 | every priority and status string parses back to its member |
| Vocabulary.StatusNameInjective | backend-node/server.js:81 | distinct statuses are stored as distinct strings |
| Text.Lower | backend-node/server.js:129 | lower-casing keeps the length, leaves no capital A–Z, turns each capital into its small letter and leaves every other character as it was |
| Text.LowerIdempotent | backend-node/server.js:129 | lower-casing an already lower-cased text changes nothing |
| Text.LowerAppend | backend-node/server.js:129 | lower-casing a concatenation is the concatenation of the lower-cased parts |
| Text.Contains | backend-node/server.js:134 | a successful scan means the needle is no longer than the text, and a needle at the start of the text is found |
| Text.ContainsIsSubstring | backend-node/server.js:134 | the `includes` scan succeeds iff the needle occurs at some position, in both directions |
| Text.SubstringOfExtension | backend-node/server.js:134 | a substring of a text stays a substring when text is added on either side |
| Text.AnyContains | backend-node/server.js:134 | `some(k => hay.includes(k))` is true iff some keyword occurs in the text |
| Text.Split | backend-node/server.js:150 | `split(' ')` gives at least one field, no field holds a space, and joining the fields restores the input |
| Text.SplitJoin | backend-node/server.js:150 | splitting the join of space-free fields gives back exactly those fields |
| Text.SplitAtFirstSeparator | backend-node/server.js:150 | the first field ends at the first space and the rest is split on its own |
| Credentials.Significant | backend-node/server.js:186 | bcrypt hashes a prefix of the password of at most 72 characters, the whole password when it is no longer |
| Credentials.HashPassword | backend-node/server.js:186 | the hash keeps the salt and accepts the password it was made from |
| Credentials.CheckPassword | backend-node/server.js:219 | a hash accepts only candidates that begin with its hashed part, and a candidate of at most 72 characters only if it is exactly that part |
| Credentials.CheckHashed | backend-node/server.js:186-219 | a hash accepts a candidate iff the two passwords agree on their first 72 characters, so for passwords of at most 72 characters iff they are equal, whatever the salt |
| Credentials.LongPasswordsShareHash | backend-node/server.js:186-219 | two passwords of 72 or more characters that share their first 72 check against each other's hash |
| Store.EmailIdentifiesUser | backend-node/server.js:61 | under the UNIQUE index on `email`, two rows with one email are the same row |
| Store.FindUser | backend-node/server.js:211 | the lookup finds a row iff some row has the email (and the role, when one is asked), and what it finds matches |
| Store.FindUserById | backend-node/server.js:362 | the join finds a user iff the id is in the table, and the found row has that id |
| Store.OwnedBy | backend-node/server.js:278 | `WHERE user_id = ?` keeps exactly the rows of that user |
| Store.OwnedByKeepsOrder | backend-node/server.js:278 | selecting from a table in creation order gives rows in creation order |
| Store.FindOwned | backend-node/server.js:293 | a row is found iff one has both the id and the user id, and the found row has both |
| Store.ReverseIsPermutation | backend-node/server.js:278 | reading the table newest first keeps every row with its multiplicity |
| Store.ReverseIsNewestFirst | backend-node/server.js:278 | a table in creation order read backwards is in `created_at DESC` order |
| Store.JoinUsers | backend-node/server.js:359-363 | the inner join gives at most one row per complaint, each carrying its owner's name, email and phone |
| Store.JoinKeepsEveryComplaint | backend-node/server.js:87 | with the foreign key holding, the join drops no complaint and keeps their order |
| Store.SetStatus | backend-node/server.js:413-416 | the update keeps the number of rows and each row's id, owner, creation time and `resolved_at` |
| Store.SetStatusChangesOnlyTarget | backend-node/server.js:413-416 | the update sets status and `updated_at` on the rows with that id, and every other row and field (`resolved_at` included) is unchanged |
| Store.SetStatusOfAbsentId | backend-node/server.js:413-416 | an id that no row has leaves the table exactly as it was |
| Store.CountStatus | backend-node/server.js:378-380 | a status count never exceeds the number of complaints |
| Store.CountStatusExtremes | backend-node/server.js:378-380 | a status count is 0 iff no row has one of the statuses, and the table size iff every row has one |
| Store.CountPriority | backend-node/server.js:381-383 | a priority count never exceeds the number of complaints |
| Store.CountPriorityExtremes | backend-node/server.js:381-383 | a priority count is 0 iff no row has the priority, and the table size iff every row has it |
| Store.CountRole | backend-node/server.js:376 | a role count never exceeds the number of users |
| Store.CountRoleExtremes | backend-node/server.js:376 | a role count is 0 iff no user has the role, and the table size iff every user has it |
| Store.StatsOf | backend-node/server.js:376-383 | `totalComplaints` is the table size, the three priority counters add up to it, the three status counters do not exceed it, and `totalUsers` does not exceed the number of users |
| Store.CountStatusUnion | backend-node/server.js:380 | counting `status IN (a ∪ b)` for disjoint groups is the sum of the two counts |
| Store.CountEveryStatus | backend-node/server.js:81 | every row has one of the five statuses, so counting all five counts the table |
| Store.PriorityCountsPartition | backend-node/server.js:381-383 | the High, Medium and Low counts add up to the number of complaints |
| Store.StatsBuckets | backend-node/server.js:376-394 | `resolved` is Resolved plus Closed; pending + inProgress + resolved + Escalated = total; the priorities sum to the total; `totalUsers` counts citizens only |
| Store.Database.constructor | backend-node/server.js:58-92 | the tables start empty with both AUTO_INCREMENT counters at 1 and the invariant holding |
| Store.Database.UserByEmail | backend-node/server.js:180 | a row is found iff the email is taken, and it carries that email |
| Store.Database.AdminByEmail | backend-node/server.js:320 | a row is found iff an admin has the email, and it is an admin with that email |
| Store.Database.OwnComplaints | backend-node/server.js:277-280 | exactly the user's complaints, each as often as stored, newest first |
| Store.Database.OwnComplaint | backend-node/server.js:292-295 | a row is found iff one matches both the id and the user |
| Store.Database.AllComplaints | backend-node/server.js:359-364 | every complaint exactly once, newest first, each joined with its owner's contact fields |
| Store.Database.Stats | backend-node/server.js:376-383 | each counter is its own count: citizens, complaints, Pending, In Progress, Resolved plus Closed, and each of the three priorities |
| Store.Database.InsertUser | backend-node/server.js:189-192 | the insert succeeds iff the email is free and name, email and phone fit their `VARCHAR(255)`, `VARCHAR(255)` and `VARCHAR(20)` columns (server.js lines 60-63); a success appends one row with the next id and the current time; a failure changes no row; the complaint table and its counter stay; the invariant holds |
| Store.Database.InsertComplaint | backend-node/server.js:258-261 | the insert succeeds iff the user exists (the foreign key) and title, category and location fit their 255, 100 and 255 columns (server.js lines 76-79); a success appends one row with the next id, the current time and no update or resolution time; a failure changes no row; the users table and its counter stay |
| Store.Database.UpdateStatus | backend-node/server.js:413-416 | the table becomes the status update of the old one at the advanced clock; users and counters are unchanged |
| NodeServer.AssignPriority | backend-node/server.js:128-145 | High iff a high keyword occurs in the lower-cased description or the lower-cased category is a high category; otherwise Medium iff a medium keyword occurs; otherwise Low |
| NodeServer.KeywordSurvivesExtension | backend-node/server.js:134-140 | a keyword found in a description is still found after text is added before or after it |
| NodeServer.ExtendingNeverLowersPriority | backend-node/server.js:134-140 | adding text to a description never lowers its priority in the order Low < Medium < High |
| NodeServer.FormCategoriesThatForceHigh | frontend/src/pages/SubmitComplaint.js:19-29 | of the form's nine categories exactly Electricity, Health and Safety force High; "Water Supply" decides like "Other" |
| NodeServer.NoIssuesHereIsMedium | backend-node/server.js:139-141 | "no issues here" with "Water Supply" is Medium, because "issue" is a raw substring |
| NodeServer.WildlifeIsHigh | backend-node/server.js:131-136 | "wildlife" is High for every category, because it contains "life" |
| NodeServer.EmptyDescription | backend-node/server.js:134-144 | an empty description is High for a high category and Low otherwise |
| NodeServer.AuthenticateToken | backend-node/server.js:148-163 | no header means no user; a request runs as a user only when a bearer token is present, verifies, and carries that user's id |
| NodeServer.BearerToken | backend-node/server.js:149-150 | a token, when found, is non-empty and holds no space |
| NodeServer.TokenIsSecondField | backend-node/server.js:150 | the token is the second space-separated field, whatever the first word is |
| NodeServer.NoSecondFieldNoToken | backend-node/server.js:150-154 | a header that is one word, with or without a trailing space, carries no token |
| NodeServer.AuthOutcomes | backend-node/server.js:148-163 | no header or no token means 401; a token that fails verification means 403; otherwise the request runs as the id in the token |
| NodeServer.OnlyTheIdIsRead | backend-node/server.js:160 | verifiers that agree on which tokens pass and on their ids give the same outcome, so the role claim is never read |
| NodeServer.CitizenTokenPassesAdminGate | backend-node/server.js:156-161 | a token whose claims have no role passes the middleware as its id |
| Handlers.AuthFailure | backend-node/server.js:151-159 | a missing token gives 401 and a token that fails verification gives 403, each with an error body |
| Handlers.Register | backend-node/server.js:171-199 | missing fields give 400 and no write; a taken email gives 400 and no write; a value too long for its column gives 500 "Registration failed" and no row; otherwise 201, exactly one citizen row is added with the hashed password, the user counter moves on by one, and logging in with that email and password then succeeds; the complaint table and its counter never change; the Flask `register` (backend/app.py:67-108) runs the same steps |
| Handlers.Login | backend-node/server.js:202-245 | 400 iff a field is missing; 401, the same response for an unknown email and a wrong password, iff no account has that email and password; otherwise 200 with a token holding the account's id and no role; the Flask `login` (backend/app.py:110-151) has the same outcomes |
| Handlers.AdminLogin | backend-node/server.js:311-354 | 401 iff no admin account has that email and password; a success carries an admin row and a token with the admin role |
| Handlers.AdminLoginNeedsAdminRole | backend-node/server.js:320-331 | for a stored account, the admin login succeeds iff the account is an admin and the password matches |
| Handlers.SubmitComplaint | backend-node/server.js:248-272 | auth failures and missing fields change nothing; 201 iff the token's user exists and the values fit their columns, else 500 "Failed to submit complaint" with no row added; a success appends one Pending row for the token's user with the classifier's priority, moves the complaint counter on by one, returns the id and priority, and the row can then be read back; the users table and its counter never change |
| FlaskApp.SubmitComplaint | backend/app.py:153-197 | 400 and no write unless title, description and category are given; otherwise 201 iff the identity is a user and the values fit their columns, else 500 with no row added; a success appends one Pending row owned by the identity with the Python classifier's priority, which the response returns, moves the complaint counter on by one, and the row can then be read back; the users table and its counter never change |
| Handlers.GetComplaints | backend-node/server.js:275-287 | an authenticated caller gets all of their own complaints and no others, newest first |
| FlaskApp.GetComplaints | backend/app.py:199-227 | 200 with exactly the identity's complaints, each as often as stored, newest first |
| Handlers.GetComplaint | backend-node/server.js:290-306 | 404 iff no complaint has both that id and the caller as owner; else 200 with that row |
| FlaskApp.GetComplaint | backend/app.py:229-258 | 404 iff no complaint has both the id and the identity as owner; otherwise 200 with that row |
| Handlers.NoComplaintOfAnotherUser | backend-node/server.js:292-299 | asking for another user's complaint id gives 404 |
| Handlers.AdminGetComplaints | backend-node/server.js:357-371 | any authenticated caller gets every complaint once, newest first, with its submitter's contact fields |
| Handlers.AdminGetStats | backend-node/server.js:374-401 | any authenticated caller gets the eight counters, each the count of its own query (High, Medium and Low each counted on its own); resolved = Resolved + Closed, the status counters miss only Escalated rows, the priority counters cover every row |
| Handlers.UpdateComplaintStatus | backend-node/server.js:404-423 | a missing status gives 400 and no write; otherwise 200, even for an unknown id, and exactly the rows with that id get the status and a fresh `updated_at`; the users table and both AUTO_INCREMENT counters stay |
| Handlers.CitizenReadsAdminRoutes | backend-node/server.js:357-376 | a citizen's login token (no role claim) gets 200 from the admin complaint list and the admin statistics |
| FlaskApp.AssignPriorityPy | backend/app.py:38-60 | the two separate High checks give the same priority as the Node classifier for every input; Medium and Low only when no high rule applies |
| Wire.ToJson | backend-node/server.js:282 | the JSON status and priority strings parse back to the row's members; id, owner, title, description, category, location and the three timestamps are carried over |
| Wire.ToJsonAll | backend-node/server.js:282 | the k-th JSON object is the k-th row's: same id, and status and priority strings that parse back to that row's members |
| Wire.ToJsonAllAppend | backend-node/server.js:282 | serialising a concatenation of row lists is concatenating their serialisations |
| Dashboard.CountStatusNamed | frontend/src/pages/Dashboard.js:30-32 | a filter count never exceeds the number of complaints |
| Dashboard.CountStatusNamedZero | frontend/src/pages/Dashboard.js:30-32 | a card shows 0 iff no complaint has one of its statuses |
| Dashboard.ComputeStats | frontend/src/pages/Dashboard.js:28-33 | `total` is the number of complaints; pending + inProgress + resolved plus the uncounted statuses equals the total |
| Dashboard.CardsPartition | frontend/src/pages/Dashboard.js:30-32 | each complaint is counted by at most one card, and the rest have another status |
| Dashboard.FetchComplaints | frontend/src/pages/Dashboard.js:23-37 | a failed fetch leaves the stats as they were; a successful one replaces them with the computed counters |
| Dashboard.FailedFirstFetchShowsZeros | frontend/src/pages/Dashboard.js:12-17 | the counters start at zero and a failed first fetch keeps them there |
| Dashboard.CardsAgreeWithServer | frontend/src/pages/Dashboard.js:32 | on the rows the server sends, the cards equal the server's counts (`resolved` is Resolved plus Closed in both), and the uncounted rows are the Escalated ones |
| AdminDashboard.GetPriorityClass | frontend/src/pages/AdminDashboard.js:67-74 | a non-empty class iff the string is one of the three priorities |
| AdminDashboard.PriorityClassesDistinct | frontend/src/pages/AdminDashboard.js:67-74 | the three priorities get three different classes |
| AdminDashboard.GetStatusClass | frontend/src/pages/AdminDashboard.js:76-85 | a non-empty class iff the string is one of the five statuses; the resolved class iff Resolved or Closed |
| AdminDashboard.StatusClassesGroupResolved | frontend/src/pages/AdminDashboard.js:76-85 | two statuses share a class iff they are equal or are Resolved and Closed |
| AdminDashboard.StatusOptionsAreTheEnum | frontend/src/pages/AdminDashboard.js:232-236 | the drop-down offers each of the five ENUM statuses exactly once, and every option parses as a status |
| AdminDashboard.InitialStatsAreEmptyDatabase | frontend/src/pages/AdminDashboard.js:12-21 | the initial record has all eight counters at zero, as the statistics of an empty database |
| ComplaintDetail.StoredComplaintsHaveBadges | frontend/src/pages/ComplaintDetail.js:29-56 | the page's mappings (the same as the admin dashboard's) give every stored complaint a non-empty priority badge and status badge |
| ComplaintDetail.ShowsLocation | frontend/src/pages/ComplaintDetail.js:119-127 | the Location row appears iff the location is set and non-empty |
| ComplaintDetail.ShowsLastUpdated | frontend/src/pages/ComplaintDetail.js:137-145 | the Last Updated row appears iff `updated_at` is set, and then the timeline's status entry shows that time; otherwise the entry reads "In progress" |
| ComplaintDetail.OptionalRowsOfEveryComplaint | frontend/src/pages/ComplaintDetail.js:119-145 | for every complaint row, Location is shown iff a non-empty location is stored and Last Updated iff `updated_at` is set |
| ComplaintDetail.Timeline | frontend/src/pages/ComplaintDetail.js:156-185 | "Submitted" always comes first; exactly one status entry iff the status is not Pending, timed by `updated_at` or reading "In progress"; exactly one "Resolved" entry iff Resolved or Closed and `resolved_at` is set, last, at `resolved_at`; nothing else |
| ComplaintDetail.NoResolvedEntryForStoredComplaints | frontend/src/pages/ComplaintDetail.js:177-185 | no write sets `resolved_at`, so no stored complaint ever shows the "Resolved" entry |
| ComplaintDetail.UpdatedComplaintShowsStatusEntry | frontend/src/pages/ComplaintDetail.js:137-175 | after an update to a non-Pending status, the complaint shows Last Updated and a status entry naming the new status at the update time |
| ComplaintDetail.UpdatedComplaintShowsLastUpdated | frontend/src/pages/ComplaintDetail.js:137-145 | after any status update, Pending included, the updated complaint shows Last Updated at the update time |
| ComplaintDetail.NewComplaintDetail | frontend/src/pages/ComplaintDetail.js:119-185 | a newly submitted complaint shows only the "Submitted" entry and no Last Updated row; it shows Location iff a non-empty location was given |

## Left out

- Unicode case folding: `toLowerCase` and `.lower()` fold all of Unicode, but `Text.Lower` folds only ASCII `A`–`Z`.
- bcrypt and JWT internals: hashing is the symbolic term `Bcrypt(salt, significant)`. Signing, the secret and the 24-hour expiry are the `verify` parameter, which either gives the claims or fails.
- Credentials.CheckHashed: bcrypt keeps the first 72 bytes of the UTF-8 encoding, and the model keeps the first 72 characters. These agree for ASCII passwords. A password with multi-byte characters is cut earlier by bcrypt than by the model. The model also does not capture a bcrypt binding that refuses passwords over 72 bytes instead of cutting them.
- Errors from database connections and drivers: the 500 responses for a failed connection or query (`Login failed`, `Failed to fetch ...`, the Flask `str(e)` bodies) are not modelled. The model keeps only the 500 of a failed insert.
- Handlers.Register: a JSON field that is not a string (a number, say) is not modelled. Request fields are `Option<string>`. In the Flask `register`, a request without a JSON body (`get_json()` is `None`) fails with 500 before the field check; that is not modelled either.
- Handlers.SubmitComplaint: on a failed insert the Flask route answers 500 with the driver's message; the model uses the Express text. A non-string `description` passes the field check and then makes `toLowerCase` throw, which gives 500; the model's fields are strings, so this is not modelled. The Flask route without a JSON body fails with 500 where the model answers 400.
- Store.Database.InsertUser: only the `VARCHAR` widths are checked. The `TEXT` column `address` has a limit in bytes, and the model does not check it.
- Store.Database.InsertComplaint: only the `VARCHAR` widths are checked. The `TEXT` column `description` has a limit in bytes, and the model does not check it. MySQL run without strict mode would truncate long values instead of failing; the model follows the default strict mode.
- The Flask `jwt_required` gate: its 401/422 responses for a missing or bad token are not modelled. The Flask handlers are the `Handlers` members with `Authenticated(identity)`.
- Status strings outside the ENUM in the status update: the code checks only that `status` is non-empty, and what MySQL does with another string depends on its SQL mode. The model takes the status from the five-member datatype.
- Non-numeric path ids: the model takes `id: int`. What MySQL makes of `/api/complaints/abc` is not modelled.
- MySQL collation: email comparison is case-sensitive string equality in the model, while MySQL's default collation ignores case.
- AUTO_INCREMENT gaps: a failed insert does not consume an id in the model.
- Timestamps: `NOW()` is a natural-number clock. Timestamps are not formatted as dates (the Flask `strftime` loop, `toLocaleString`). Rows with equal `created_at` come in table order; the contracts leave that order open.
- JSON field layout of responses: messages such as "Login successful", the `user` object's field list and the `message` of the submit response are not part of `Http.Body`.
- The `/api/health` route, the DDL and connection set-up, and `escalation_log`, `notifications`, `assigned_to` and `sla_deadline`: no handler reads or writes them.
- The operational scripts (`database_setup.py`, `setup_db_interactive.py`, `test_mysql.py`, `find-mysql-password.js`, `create-admin.js`, `check-admin.js`): database, console and file I/O.
- `ComplaintList.js`: its class mappings are copies of the admin dashboard's.
- Rendering, routing, animations and network calls of the React pages: only their pure rules are modelled.
- Concurrency: requests run one at a time against the `Database`, so races between the email check and the insert are not modelled.

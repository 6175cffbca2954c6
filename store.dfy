/**
 * The two MySQL tables the handlers use, `users` and `complaints`, as an
 * in-memory database object. Each method or function of `Database` is one
 * SQL statement the handlers issue; the pure functions and lemmas before
 * the class say what those statements select, count and change.
 *
 * `NOW()` is the database clock, which only moves forward: every write
 * advances it by an amount chosen by the environment (`elapsed`).
 */
module Store {
  import opened Wrappers
  import opened Vocabulary
  import opened Credentials

  datatype UserRow = UserRow(
    id: nat, name: string, email: string, phone: string,
    password: PasswordHash, address: Option<string>, role: Role, createdAt: nat)

  datatype ComplaintRow = ComplaintRow(
    id: nat, userId: nat, title: string, description: string, category: string,
    location: Option<string>, priority: Priority, status: Status,
    createdAt: nat, updatedAt: Option<nat>, resolvedAt: Option<nat>)

  /** A row of `complaints c JOIN users u ON c.user_id = u.id` with the submitter's contact fields. */
  datatype JoinedRow = JoinedRow(complaint: ComplaintRow, userName: string, userEmail: string, userPhone: string)

  /** The eight counters of the admin statistics. */
  datatype StatsRecord = StatsRecord(
    totalUsers: nat, totalComplaints: nat,
    pending: nat, inProgress: nat, resolved: nat,
    highPriority: nat, mediumPriority: nat, lowPriority: nat)

  // ---------------------------------------------------------------- users

  function UserIds(users: seq<UserRow>): set<int>
  {
    set u | u in users :: u.id as int
  }

  /** The UNIQUE index on `users.email`. */
  ghost predicate UniqueEmails(users: seq<UserRow>)
  {
    forall i, j :: 0 <= i < j < |users| ==> users[i].email != users[j].email
  }

  /** Under the UNIQUE index, an email identifies at most one row. */
  lemma EmailIdentifiesUser(users: seq<UserRow>, u: UserRow, v: UserRow)
    requires UniqueEmails(users)
    requires u in users && v in users && u.email == v.email
    ensures u == v
  {
    var i :| 0 <= i < |users| && users[i] == u;
    var j :| 0 <= j < |users| && users[j] == v;
    assert !(i < j) && !(j < i);
  }

  predicate EmailTaken(users: seq<UserRow>, email: string)
  {
    exists u :: u in users && u.email == email
  }

  /** The widths of the `VARCHAR` columns: `name`, `email`, `title` and `location` 255, `phone` 20, `category` 100. */
  const NAME_WIDTH: nat := 255
  const EMAIL_WIDTH: nat := 255
  const PHONE_WIDTH: nat := 20
  const TITLE_WIDTH: nat := 255
  const CATEGORY_WIDTH: nat := 100
  const LOCATION_WIDTH: nat := 255

  /**
   * The values fit the `VARCHAR` columns of `users`. In MySQL's default
   * strict SQL mode a longer value makes the INSERT fail.
   */
  predicate UserFits(name: string, email: string, phone: string)
  {
    |name| <= NAME_WIDTH && |email| <= EMAIL_WIDTH && |phone| <= PHONE_WIDTH
  }

  /** The values fit the `VARCHAR` columns of `complaints` (`location` may be NULL). */
  predicate ComplaintFits(title: string, category: string, location: Option<string>)
  {
    |title| <= TITLE_WIDTH && |category| <= CATEGORY_WIDTH && (location.None? || |location.value| <= LOCATION_WIDTH)
  }

  /** Appending a row with a fresh email and a larger id keeps ids increasing and emails unique. */
  lemma AppendUser(users: seq<UserRow>, row: UserRow)
    requires forall i, j :: 0 <= i < j < |users| ==> users[i].id < users[j].id
    requires UniqueEmails(users)
    requires forall u :: u in users ==> u.id < row.id
    requires !EmailTaken(users, row.email)
    ensures forall i, j :: 0 <= i < j < |users + [row]| ==> (users + [row])[i].id < (users + [row])[j].id
    ensures UniqueEmails(users + [row])
    ensures UserIds(users + [row]) == UserIds(users) + {row.id}
  {
    var all := users + [row];
    forall i, j | 0 <= i < j < |all| ensures all[i].id < all[j].id && all[i].email != all[j].email {
      if j == |users| {
        assert all[i] in users;
      }
    }
  }

  /** The `WHERE email = ?` condition, with `AND role = ?` when a role is given. */
  predicate UserMatches(u: UserRow, email: string, role: Option<Role>)
  {
    u.email == email && (role.None? || u.role == role.value)
  }

  /** The first row of `SELECT * FROM users WHERE email = ? [AND role = ?]`. */
  function FindUser(users: seq<UserRow>, email: string, role: Option<Role>): (u: Option<UserRow>)
    ensures u.Some? <==> exists v :: v in users && UserMatches(v, email, role)
    ensures u.Some? ==> u.value in users && UserMatches(u.value, email, role)
  {
    if users == [] then None
    else if UserMatches(users[0], email, role) then Some(users[0])
    else FindUser(users[1..], email, role)
  }

  /** The user a complaint row is joined with (`ON c.user_id = u.id`). */
  function FindUserById(users: seq<UserRow>, id: int): (u: Option<UserRow>)
    ensures u.Some? <==> id in UserIds(users)
    ensures u.Some? ==> u.value in users && u.value.id == id
  {
    if users == [] then None
    else if users[0].id == id then Some(users[0])
    else FindUserById(users[1..], id)
  }

  // ----------------------------------------------------------- complaints

  /** Insertion order is creation order: `created_at` never decreases along the table. */
  ghost predicate OldestFirst(rows: seq<ComplaintRow>)
  {
    forall i, j :: 0 <= i < j < |rows| ==> rows[i].createdAt <= rows[j].createdAt
  }

  /** `ORDER BY created_at DESC`; the order among equal timestamps is left open. */
  ghost predicate NewestFirst(rows: seq<ComplaintRow>)
  {
    forall i, j :: 0 <= i < j < |rows| ==> rows[i].createdAt >= rows[j].createdAt
  }

  /** `WHERE user_id = ?`, in table order. */
  function OwnedBy(rows: seq<ComplaintRow>, uid: int): (r: seq<ComplaintRow>)
    ensures forall x :: x in r <==> x in rows && x.userId == uid
  {
    if rows == [] then []
    else (if rows[0].userId == uid then [rows[0]] else []) + OwnedBy(rows[1..], uid)
  }

  /** Selecting rows keeps their relative order, so a sorted table gives a sorted selection. */
  lemma {:induction false} OwnedByKeepsOrder(rows: seq<ComplaintRow>, uid: int)
    requires OldestFirst(rows)
    ensures OldestFirst(OwnedBy(rows, uid))
  {
    if rows != [] {
      assert OldestFirst(rows[1..]);
      OwnedByKeepsOrder(rows[1..], uid);
      var tail := OwnedBy(rows[1..], uid);
      forall x | x in tail ensures rows[0].createdAt <= x.createdAt {
        var k :| 1 <= k < |rows| && rows[k] == x;
      }
    }
  }

  /** The first row of `SELECT * FROM complaints WHERE id = ? AND user_id = ?`. */
  function FindOwned(rows: seq<ComplaintRow>, id: int, uid: int): (r: Option<ComplaintRow>)
    ensures r.Some? <==> exists x :: x in rows && x.id == id && x.userId == uid
    ensures r.Some? ==> r.value in rows && r.value.id == id && r.value.userId == uid
  {
    if rows == [] then None
    else if rows[0].id == id && rows[0].userId == uid then Some(rows[0])
    else FindOwned(rows[1..], id, uid)
  }

  function Reverse<T>(s: seq<T>): (r: seq<T>)
    ensures |r| == |s|
    ensures forall k :: 0 <= k < |s| ==> r[k] == s[|s| - 1 - k]
  {
    seq(|s|, k requires 0 <= k < |s| => s[|s| - 1 - k])
  }

  /** Reversing only reorders: it keeps every element with its multiplicity. */
  lemma {:induction false} ReverseIsPermutation<T>(s: seq<T>)
    ensures multiset(Reverse(s)) == multiset(s)
  {
    if s != [] {
      ReverseIsPermutation(s[1..]);
      assert Reverse(s) == Reverse(s[1..]) + [s[0]];
      assert s == [s[0]] + s[1..];
    }
  }

  /** A table in creation order, read backwards, is newest first. */
  lemma ReverseIsNewestFirst(rows: seq<ComplaintRow>)
    requires OldestFirst(rows)
    ensures NewestFirst(Reverse(rows))
  {
    var r := Reverse(rows);
    forall i, j | 0 <= i < j < |r| ensures r[i].createdAt >= r[j].createdAt {
      assert r[i] == rows[|rows| - 1 - i] && r[j] == rows[|rows| - 1 - j];
    }
  }

  /** Each complaint joined with its submitter; an inner join drops complaints without one. */
  function JoinUsers(rows: seq<ComplaintRow>, users: seq<UserRow>): (r: seq<JoinedRow>)
    ensures |r| <= |rows|
    ensures forall j :: j in r ==> JoinedWith(j, users)
  {
    if rows == [] then []
    else
      match FindUserById(users, rows[0].userId)
      case None => JoinUsers(rows[1..], users)
      case Some(u) => [JoinedRow(rows[0], u.name, u.email, u.phone)] + JoinUsers(rows[1..], users)
  }

  /** `j` carries the name, email and phone of the user that owns its complaint. */
  ghost predicate JoinedWith(j: JoinedRow, users: seq<UserRow>)
  {
    exists u :: u in users && u.id == j.complaint.userId
      && j.userName == u.name && j.userEmail == u.email && j.userPhone == u.phone
  }

  /** The complaint part of each joined row. */
  function Project(joined: seq<JoinedRow>): (r: seq<ComplaintRow>)
    ensures |r| == |joined|
    ensures forall k :: 0 <= k < |joined| ==> r[k] == joined[k].complaint
  {
    seq(|joined|, k requires 0 <= k < |joined| => joined[k].complaint)
  }

  /** When every complaint's owner exists (the foreign key), the join loses no complaint and keeps their order. */
  lemma {:induction false} JoinKeepsEveryComplaint(rows: seq<ComplaintRow>, users: seq<UserRow>)
    requires forall x :: x in rows ==> x.userId in UserIds(users)
    ensures Project(JoinUsers(rows, users)) == rows
  {
    if rows != [] {
      JoinKeepsEveryComplaint(rows[1..], users);
      assert rows[0].userId in UserIds(users);
      var tail := JoinUsers(rows[1..], users);
      var u := FindUserById(users, rows[0].userId).value;
      assert JoinUsers(rows, users) == [JoinedRow(rows[0], u.name, u.email, u.phone)] + tail;
      assert Project(JoinUsers(rows, users)) == [rows[0]] + Project(tail);
    }
  }

  /** `UPDATE complaints SET status = ?, updated_at = NOW() WHERE id = ?` applied to the table. */
  function SetStatus(rows: seq<ComplaintRow>, id: int, status: Status, now: nat): (r: seq<ComplaintRow>)
    ensures |r| == |rows|
    ensures forall i :: 0 <= i < |rows| ==>
              r[i].id == rows[i].id && r[i].userId == rows[i].userId
              && r[i].createdAt == rows[i].createdAt && r[i].resolvedAt == rows[i].resolvedAt
  {
    seq(|rows|, i requires 0 <= i < |rows| =>
      if rows[i].id == id then rows[i].(status := status, updatedAt := Some(now)) else rows[i])
  }

  /**
   * The update rewrites the status and `updated_at` of the rows with that id
   * and nothing else: every other row, and every other field (`resolved_at`
   * included), is as it was.
   */
  lemma SetStatusChangesOnlyTarget(rows: seq<ComplaintRow>, id: int, status: Status, now: nat)
    ensures var r := SetStatus(rows, id, status, now);
      && |r| == |rows|
      && (forall i :: 0 <= i < |rows| && rows[i].id != id ==> r[i] == rows[i])
      && (forall i :: 0 <= i < |rows| && rows[i].id == id ==>
            r[i].status == status && r[i].updatedAt == Some(now)
            && r[i] == rows[i].(status := r[i].status, updatedAt := r[i].updatedAt))
  {
  }

  /** Since ids and creation times stay put, so do the table's two orderings. */
  lemma SetStatusKeepsOrder(rows: seq<ComplaintRow>, id: int, status: Status, now: nat)
    requires forall i, j :: 0 <= i < j < |rows| ==> rows[i].id < rows[j].id
    requires OldestFirst(rows)
    ensures var r := SetStatus(rows, id, status, now);
      (forall i, j :: 0 <= i < j < |r| ==> r[i].id < r[j].id) && OldestFirst(r)
  {
  }

  /** An id that no row has leaves the table exactly as it was. */
  lemma SetStatusOfAbsentId(rows: seq<ComplaintRow>, id: int, status: Status, now: nat)
    requires forall x :: x in rows ==> x.id != id
    ensures SetStatus(rows, id, status, now) == rows
  {
  }

  // ---------------------------------------------------------------- counts

  /** `SELECT COUNT(*) FROM complaints WHERE status IN (...)`. */
  function CountStatus(rows: seq<ComplaintRow>, statuses: set<Status>): (n: nat)
    ensures n <= |rows|
  {
    if rows == [] then 0
    else (if rows[0].status in statuses then 1 else 0) + CountStatus(rows[1..], statuses)
  }

  /** No row counted iff no row has one of the statuses; every row counted iff every row has one. */
  lemma {:induction false} CountStatusExtremes(rows: seq<ComplaintRow>, statuses: set<Status>)
    ensures CountStatus(rows, statuses) == 0 <==> forall i :: 0 <= i < |rows| ==> rows[i].status !in statuses
    ensures CountStatus(rows, statuses) == |rows| <==> forall i :: 0 <= i < |rows| ==> rows[i].status in statuses
  {
    if rows != [] {
      CountStatusExtremes(rows[1..], statuses);
      assert forall i :: 1 <= i < |rows| ==> rows[i] == rows[1..][i - 1];
    }
  }

  /** Counting two disjoint groups of statuses together is counting each and adding. */
  lemma {:induction false} CountStatusUnion(rows: seq<ComplaintRow>, a: set<Status>, b: set<Status>)
    requires a !! b
    ensures CountStatus(rows, a + b) == CountStatus(rows, a) + CountStatus(rows, b)
  {
    if rows != [] {
      CountStatusUnion(rows[1..], a, b);
    }
  }

  /** Every row carries one of the five statuses. */
  lemma {:induction false} CountEveryStatus(rows: seq<ComplaintRow>)
    ensures CountStatus(rows, ALL_STATUSES) == |rows|
  {
    if rows != [] {
      CountEveryStatus(rows[1..]);
      assert rows[0].status in ALL_STATUSES by {
        match rows[0].status
        case Pending =>
        case InProgress =>
        case Resolved =>
        case Closed =>
        case Escalated =>
      }
    }
  }

  /** `SELECT COUNT(*) FROM complaints WHERE priority = ?`. */
  function CountPriority(rows: seq<ComplaintRow>, p: Priority): (n: nat)
    ensures n <= |rows|
  {
    if rows == [] then 0
    else (if rows[0].priority == p then 1 else 0) + CountPriority(rows[1..], p)
  }

  /** No row counted iff no row has the priority; every row counted iff every row has it. */
  lemma {:induction false} CountPriorityExtremes(rows: seq<ComplaintRow>, p: Priority)
    ensures CountPriority(rows, p) == 0 <==> forall i :: 0 <= i < |rows| ==> rows[i].priority != p
    ensures CountPriority(rows, p) == |rows| <==> forall i :: 0 <= i < |rows| ==> rows[i].priority == p
  {
    if rows != [] {
      CountPriorityExtremes(rows[1..], p);
      assert forall i :: 1 <= i < |rows| ==> rows[i] == rows[1..][i - 1];
    }
  }

  /** Every row carries one of the three priorities, so the three counts add up to the table size. */
  lemma {:induction false} PriorityCountsPartition(rows: seq<ComplaintRow>)
    ensures CountPriority(rows, High) + CountPriority(rows, Medium) + CountPriority(rows, Low) == |rows|
  {
    if rows != [] {
      PriorityCountsPartition(rows[1..]);
    }
  }

  /** `SELECT COUNT(*) FROM users WHERE role = ?`. */
  function CountRole(users: seq<UserRow>, role: Role): (n: nat)
    ensures n <= |users|
  {
    if users == [] then 0
    else (if users[0].role == role then 1 else 0) + CountRole(users[1..], role)
  }

  /** No user counted iff no user has the role; every user counted iff every user has it. */
  lemma {:induction false} CountRoleExtremes(users: seq<UserRow>, role: Role)
    ensures CountRole(users, role) == 0 <==> forall i :: 0 <= i < |users| ==> users[i].role != role
    ensures CountRole(users, role) == |users| <==> forall i :: 0 <= i < |users| ==> users[i].role == role
  {
    if users != [] {
      CountRoleExtremes(users[1..], role);
      assert forall i :: 1 <= i < |users| ==> users[i] == users[1..][i - 1];
    }
  }

  /** The eight `COUNT(*)` queries of the statistics endpoint. */
  function StatsOf(users: seq<UserRow>, complaints: seq<ComplaintRow>): (s: StatsRecord)
    ensures s.totalComplaints == |complaints| && s.totalUsers <= |users|
    ensures s.highPriority + s.mediumPriority + s.lowPriority == s.totalComplaints
    ensures s.pending + s.inProgress + s.resolved <= s.totalComplaints
  {
    PriorityCountsPartition(complaints);
    StatusBuckets(complaints);
    StatsRecord(
      totalUsers := CountRole(users, Citizen),
      totalComplaints := |complaints|,
      pending := CountStatus(complaints, {Pending}),
      inProgress := CountStatus(complaints, {InProgress}),
      resolved := CountStatus(complaints, {Resolved, Closed}),
      highPriority := CountPriority(complaints, High),
      mediumPriority := CountPriority(complaints, Medium),
      lowPriority := CountPriority(complaints, Low))
  }

  /**
   * How the statistics relate: `resolved` counts Resolved and Closed rows
   * together; the three status buckets miss exactly the Escalated rows; the
   * three priority buckets cover every row; only citizens are counted as users.
   */
  lemma StatsBuckets(users: seq<UserRow>, complaints: seq<ComplaintRow>)
    ensures var s := StatsOf(users, complaints);
      && s.resolved == CountStatus(complaints, {Resolved}) + CountStatus(complaints, {Closed})
      && s.pending + s.inProgress + s.resolved + CountStatus(complaints, {Escalated}) == s.totalComplaints
      && s.pending + s.inProgress + s.resolved <= s.totalComplaints
      && s.highPriority + s.mediumPriority + s.lowPriority == s.totalComplaints
      && s.totalUsers == CountRole(users, Citizen) <= |users|
  {
    StatusBuckets(complaints);
    PriorityCountsPartition(complaints);
  }

  /** The status counters: Resolved and Closed together, and the four groups with Escalated cover every row. */
  lemma StatusBuckets(rows: seq<ComplaintRow>)
    ensures CountStatus(rows, {Resolved, Closed}) == CountStatus(rows, {Resolved}) + CountStatus(rows, {Closed})
    ensures CountStatus(rows, {Pending}) + CountStatus(rows, {InProgress}) + CountStatus(rows, {Resolved, Closed})
            + CountStatus(rows, {Escalated}) == |rows|
  {
    assert {Resolved} + {Closed} == {Resolved, Closed};
    CountStatusUnion(rows, {Resolved}, {Closed});
    assert {Pending} + {InProgress} == {Pending, InProgress};
    CountStatusUnion(rows, {Pending}, {InProgress});
    var open := {Pending, InProgress};
    var done := {Resolved, Closed};
    assert open + done == {Pending, InProgress, Resolved, Closed};
    CountStatusUnion(rows, open, done);
    assert (open + done) + {Escalated} == ALL_STATUSES;
    CountStatusUnion(rows, open + done, {Escalated});
    CountEveryStatus(rows);
  }

  /**
   * The complaint table's part of the database invariant: ids increase,
   * rows are in creation order, and every row has an id below the next
   * AUTO_INCREMENT value, a creation time no later than `now`, no
   * `resolved_at`, and an owner among `owners`.
   */
  ghost predicate ComplaintTableOk(rows: seq<ComplaintRow>, nextId: nat, now: nat, owners: set<int>)
  {
    && (forall i, j :: 0 <= i < j < |rows| ==> rows[i].id < rows[j].id)
    && OldestFirst(rows)
    && (forall c :: c in rows ==>
          c.id < nextId && c.createdAt <= now && c.resolvedAt.None? && c.userId in owners
          && ComplaintFits(c.title, c.category, c.location))
  }

  /** A status update at a later time keeps the complaint table's invariant. */
  lemma SetStatusKeepsTableOk(rows: seq<ComplaintRow>, id: int, status: Status,
                              nextId: nat, before: nat, now: nat, owners: set<int>)
    requires ComplaintTableOk(rows, nextId, before, owners)
    requires before <= now
    ensures ComplaintTableOk(SetStatus(rows, id, status, now), nextId, now, owners)
  {
    var r := SetStatus(rows, id, status, now);
    SetStatusKeepsOrder(rows, id, status, now);
    forall c | c in r
      ensures c.id < nextId && c.createdAt <= now && c.resolvedAt.None? && c.userId in owners
              && ComplaintFits(c.title, c.category, c.location)
    {
      var i :| 0 <= i < |r| && r[i] == c;
      assert rows[i] in rows;
    }
  }

  /** Appending a fitting row with the next id, the current time and an existing owner keeps the invariant. */
  lemma AppendComplaint(rows: seq<ComplaintRow>, row: ComplaintRow, nextId: nat, before: nat, now: nat,
                        owners: set<int>)
    requires ComplaintTableOk(rows, nextId, before, owners)
    requires before <= now
    requires row.id == nextId && row.createdAt == now && row.resolvedAt.None? && row.userId in owners
    requires ComplaintFits(row.title, row.category, row.location)
    ensures ComplaintTableOk(rows + [row], nextId + 1, now, owners)
  {
    var all := rows + [row];
    forall i, j | 0 <= i < j < |all| ensures all[i].id < all[j].id && all[i].createdAt <= all[j].createdAt {
      if j == |rows| {
        assert all[i] in rows;
      }
    }
  }

  // -------------------------------------------------------------- database

  class Database {
    var users: seq<UserRow>
    var complaints: seq<ComplaintRow>
    /** The next `AUTO_INCREMENT` value of each table. */
    var nextUserId: nat
    var nextComplaintId: nat
    /** `NOW()` */
    var clock: nat

    /**
     * Primary keys increase along each table, emails are unique, the rows
     * are in creation order, every complaint belongs to an existing user
     * (the foreign key), no write ever sets `resolved_at`, and every stored
     * value fits its column.
     */
    ghost predicate Valid()
      reads this
    {
      && (forall i, j :: 0 <= i < j < |users| ==> users[i].id < users[j].id)
      && UniqueEmails(users)
      && (forall u :: u in users ==> u.id < nextUserId && UserFits(u.name, u.email, u.phone))
      && ComplaintTableOk(complaints, nextComplaintId, clock, UserIds(users))
    }

    /** Empty tables, as created at start-up. */
    constructor ()
      ensures Valid()
      ensures users == [] && complaints == []
      ensures nextUserId == 1 && nextComplaintId == 1 && clock == 0
    {
      users, complaints := [], [];
      nextUserId, nextComplaintId := 1, 1;
      clock := 0;
    }

    /** `SELECT * FROM users WHERE email = ?`, first row. */
    function UserByEmail(email: string): (u: Option<UserRow>)
      reads this
      ensures u.Some? <==> EmailTaken(users, email)
      ensures u.Some? ==> u.value in users && u.value.email == email
    {
      FindUser(users, email, None)
    }

    /** `SELECT * FROM users WHERE email = ? AND role = 'admin'`, first row. */
    function AdminByEmail(email: string): (u: Option<UserRow>)
      reads this
      ensures u.Some? <==> exists v :: v in users && v.email == email && v.role == Admin
      ensures u.Some? ==> u.value in users && u.value.email == email && u.value.role == Admin
    {
      FindUser(users, email, Some(Admin))
    }

    /** `SELECT * FROM complaints WHERE user_id = ? ORDER BY created_at DESC`. */
    function OwnComplaints(uid: int): (r: seq<ComplaintRow>)
      reads this
      requires Valid()
      ensures NewestFirst(r)
      ensures multiset(r) == multiset(OwnedBy(complaints, uid))
      ensures forall x :: x in r <==> x in complaints && x.userId == uid
    {
      var owned := OwnedBy(complaints, uid);
      OwnedByKeepsOrder(complaints, uid);
      ReverseIsNewestFirst(owned);
      ReverseIsPermutation(owned);
      assert forall x :: x in Reverse(owned) <==> x in multiset(owned);
      Reverse(owned)
    }

    /** `SELECT * FROM complaints WHERE id = ? AND user_id = ?`, first row. */
    function OwnComplaint(id: int, uid: int): (r: Option<ComplaintRow>)
      reads this
      ensures r.Some? <==> exists x :: x in complaints && x.id == id && x.userId == uid
      ensures r.Some? ==> r.value in complaints && r.value.id == id && r.value.userId == uid
    {
      FindOwned(complaints, id, uid)
    }

    /**
     * `SELECT c.*, u.name, u.email, u.phone FROM complaints c JOIN users u
     * ON c.user_id = u.id ORDER BY c.created_at DESC`.
     */
    function AllComplaints(): (r: seq<JoinedRow>)
      reads this
      requires Valid()
      ensures |r| == |complaints|
      ensures NewestFirst(Project(r))
      ensures multiset(Project(r)) == multiset(complaints)
      ensures forall j :: j in r ==> JoinedWith(j, users)
    {
      var newest := Reverse(complaints);
      ReverseIsNewestFirst(complaints);
      ReverseIsPermutation(complaints);
      assert forall x :: x in newest ==> x in complaints;
      JoinKeepsEveryComplaint(newest, users);
      JoinUsers(newest, users)
    }

    /** The eight statistics queries, each a `COUNT(*)` over its own column. */
    function Stats(): (s: StatsRecord)
      reads this
      ensures s.totalUsers == CountRole(users, Citizen) && s.totalComplaints == |complaints|
      ensures s.pending == CountStatus(complaints, {Pending}) && s.inProgress == CountStatus(complaints, {InProgress})
      ensures s.resolved == CountStatus(complaints, {Resolved}) + CountStatus(complaints, {Closed})
      ensures s.highPriority == CountPriority(complaints, High)
      ensures s.mediumPriority == CountPriority(complaints, Medium)
      ensures s.lowPriority == CountPriority(complaints, Low)
    {
      StatsBuckets(users, complaints);
      StatsOf(users, complaints)
    }

    /**
     * `INSERT INTO users (...) VALUES (..., NOW())`; the UNIQUE index on
     * `email` makes it fail, changing no row, when the email is taken, and
     * so does a value too long for its column.
     */
    method InsertUser(name: string, email: string, phone: string, password: PasswordHash,
                      address: Option<string>, role: Role, elapsed: nat) returns (ok: bool, id: nat)
      requires Valid()
      modifies this
      ensures Valid()
      ensures clock == old(clock) + elapsed
      ensures ok <==> !EmailTaken(old(users), email) && UserFits(name, email, phone)
      ensures ok ==> id == old(nextUserId) && nextUserId == id + 1
                     && users == old(users) + [UserRow(id, name, email, phone, password, address, role, clock)]
      ensures !ok ==> users == old(users) && nextUserId == old(nextUserId)
      ensures complaints == old(complaints) && nextComplaintId == old(nextComplaintId)
    {
      clock := clock + elapsed;
      ok := !EmailTaken(users, email) && UserFits(name, email, phone);
      id := nextUserId;
      if ok {
        var row := UserRow(id, name, email, phone, password, address, role, clock);
        AppendUser(users, row);
        users := users + [row];
        nextUserId := nextUserId + 1;
      }
    }

    /**
     * `INSERT INTO complaints (...) VALUES (..., NOW())`; the foreign key on
     * `user_id` makes it fail, changing no row, when no such user exists,
     * and so does a value too long for its column.
     */
    method InsertComplaint(userId: int, title: string, description: string, category: string,
                           location: Option<string>, priority: Priority, status: Status,
                           elapsed: nat) returns (ok: bool, id: nat)
      requires Valid()
      modifies this
      ensures Valid()
      ensures clock == old(clock) + elapsed
      ensures ok <==> userId in UserIds(old(users)) && ComplaintFits(title, category, location)
      ensures ok ==> id == old(nextComplaintId) && nextComplaintId == id + 1
                     && complaints == old(complaints) + [ComplaintRow(id, userId as nat, title, description, category,
                                                                      location, priority, status, clock, None, None)]
      ensures !ok ==> complaints == old(complaints) && nextComplaintId == old(nextComplaintId)
      ensures users == old(users) && nextUserId == old(nextUserId)
    {
      clock := clock + elapsed;
      ok := userId in UserIds(users) && ComplaintFits(title, category, location);
      id := nextComplaintId;
      if ok {
        var row := ComplaintRow(id, userId as nat, title, description, category,
                                location, priority, status, clock, None, None);
        AppendComplaint(complaints, row, nextComplaintId, old(clock), clock, UserIds(users));
        complaints := complaints + [row];
        nextComplaintId := nextComplaintId + 1;
      }
    }

    /** `UPDATE complaints SET status = ?, updated_at = NOW() WHERE id = ?`. */
    method UpdateStatus(id: int, status: Status, elapsed: nat)
      requires Valid()
      modifies this
      ensures Valid()
      ensures clock == old(clock) + elapsed
      ensures complaints == SetStatus(old(complaints), id, status, clock)
      ensures users == old(users) && nextUserId == old(nextUserId) && nextComplaintId == old(nextComplaintId)
    {
      var now := clock + elapsed;
      var updated := SetStatus(complaints, id, status, now);
      SetStatusKeepsTableOk(complaints, id, status, nextComplaintId, clock, now, UserIds(users));
      clock, complaints := now, updated;
    }
  }
}

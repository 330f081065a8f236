/**
  The two persisted tables of the health coach, `users` and `records`, held as
  sequences in insertion order, and the queries the handlers run against them.

  Both tables take their ids from an auto-increment counter, so in either
  sequence the ids grow strictly from first row to last. A record refers to
  its owner by user id only.
*/
module Tables {
  import opened RiskScorer

  datatype Option<+T> = None | Some(value: T)

  /** The two roles a user can hold. */
  datatype Role = User | Admin

  /** One row of the users table. */
  datatype UserRow = UserRow(id: nat, username: string, passwordHash: string, role: Role)

  /** One row of the records table: one saved analysis. */
  datatype RecordRow = RecordRow(
    id: nat, userId: nat, vitals: Vitals,
    riskScore: int, riskLevel: string, recommendation: string, timestamp: string)

  /** The columns the history page selects for each of the caller's records. */
  datatype HistoryRow = HistoryRow(
    bmi: real, heartRate: real, sleep: real, bp: real,
    riskScore: int, riskLevel: string, timestamp: string)

  /** The columns the admin page selects for each user. */
  datatype UserSummary = UserSummary(id: nat, username: string, role: Role)

  /** The columns the admin page selects for each record, joined with its owner's name. */
  datatype OwnedRecord = OwnedRecord(id: nat, username: string, riskLevel: string, timestamp: string)

  // ---------------------------------------------------------------------
  // Table invariants
  // ---------------------------------------------------------------------

  /** The UNIQUE constraint on the username column. */
  ghost predicate UniqueUsernames(users: seq<UserRow>) {
    forall i, j :: 0 <= i < j < |users| ==> users[i].username != users[j].username
  }

  /** User ids grow strictly from the first row to the last. */
  ghost predicate UserIdsAscending(users: seq<UserRow>) {
    forall i, j :: 0 <= i < j < |users| ==> users[i].id < users[j].id
  }

  /** Auto-increment ids: positive, strictly growing, and below the next id to hand out. */
  ghost predicate UserIdsIssued(users: seq<UserRow>, nextId: nat) {
    && 1 <= nextId
    && (forall i :: 0 <= i < |users| ==> 1 <= users[i].id < nextId)
    && UserIdsAscending(users)
  }

  /** Record ids grow strictly from the oldest row to the newest. */
  ghost predicate RecordIdsAscending(records: seq<RecordRow>) {
    forall i, j :: 0 <= i < j < |records| ==> records[i].id < records[j].id
  }

  /** Auto-increment ids of the records table. */
  ghost predicate RecordIdsIssued(records: seq<RecordRow>, nextId: nat) {
    && 1 <= nextId
    && (forall i :: 0 <= i < |records| ==> 1 <= records[i].id < nextId)
    && RecordIdsAscending(records)
  }

  /** A listing is newest first: its ids fall strictly. */
  ghost predicate NewestFirst(records: seq<RecordRow>) {
    forall i, j :: 0 <= i < j < |records| ==> records[i].id > records[j].id
  }

  /** Exactly the first user holds the admin role. */
  ghost predicate OnlyFirstIsAdmin(users: seq<UserRow>) {
    forall i :: 0 <= i < |users| ==> (users[i].role == Admin <==> i == 0)
  }

  /** Some row of the users table carries this id. */
  ghost predicate IdStored(users: seq<UserRow>, id: nat) {
    exists j :: 0 <= j < |users| && users[j].id == id
  }

  /** Every record's owner id names a row of the users table. */
  ghost predicate OwnersExist(records: seq<RecordRow>, users: seq<UserRow>) {
    forall i :: 0 <= i < |records| ==> IdStored(users, records[i].userId)
  }

  // ---------------------------------------------------------------------
  // Queries
  // ---------------------------------------------------------------------

  /** The first user with this exact (case-sensitive) username, as a lookup by username returns it. */
  function FindUser(users: seq<UserRow>, username: string): (r: Option<UserRow>)
    ensures r.Some? ==> r.value in users && r.value.username == username
    ensures r.None? <==> forall u :: u in users ==> u.username != username
    decreases |users|
  {
    if users == [] then None
    else if users[0].username == username then Some(users[0])
    else FindUser(users[1..], username)
  }

  /** The first user with this id, the partner row of the join on `records.user_id = users.id`. */
  function FindUserById(users: seq<UserRow>, id: nat): (r: Option<UserRow>)
    ensures r.Some? ==> r.value in users && r.value.id == id
    ensures r.None? <==> forall u :: u in users ==> u.id != id
    decreases |users|
  {
    if users == [] then None
    else if users[0].id == id then Some(users[0])
    else FindUserById(users[1..], id)
  }

  /** The records owned by one user, newest first (the filter on `user_id`, ordered by id descending). */
  function UserRecords(records: seq<RecordRow>, userId: nat): (r: seq<RecordRow>)
    ensures forall x :: x in r <==> x in records && x.userId == userId
    ensures |r| <= |records|
    decreases |records|
  {
    if records == [] then []
    else
      var last := records[|records| - 1];
      var older := records[..|records| - 1];
      assert records == older + [last];
      if last.userId == userId then [last] + UserRecords(older, userId)
      else UserRecords(older, userId)
  }

  /** The history page's columns of one record. */
  function ToHistoryRow(r: RecordRow): HistoryRow {
    HistoryRow(r.vitals.bmi, r.vitals.heartRate, r.vitals.sleep, r.vitals.bp,
               r.riskScore, r.riskLevel, r.timestamp)
  }

  /** The history page's columns of each record of a listing, in the listing's order. */
  function HistoryRows(records: seq<RecordRow>): seq<HistoryRow> {
    seq(|records|, k requires 0 <= k < |records| => ToHistoryRow(records[k]))
  }

  /** The admin page's list of users, in table order. */
  function UserSummaries(users: seq<UserRow>): seq<UserSummary> {
    seq(|users|, k requires 0 <= k < |users| => UserSummary(users[k].id, users[k].username, users[k].role))
  }

  /** The admin page's columns of a record whose owner row is `owner`. */
  function ToOwnedRecord(r: RecordRow, owner: UserRow): OwnedRecord {
    OwnedRecord(r.id, owner.username, r.riskLevel, r.timestamp)
  }

  /** The joined row of one record, or nothing when no user has the record's owner id. */
  function JoinRow(r: RecordRow, users: seq<UserRow>): Option<OwnedRecord> {
    match FindUserById(users, r.userId)
    case Some(owner) => Some(ToOwnedRecord(r, owner))
    case None => None
  }

  /**
    All records joined with their owner's username, newest first. The join is
    an inner join: a record whose owner id matches no user is dropped.
  */
  function OwnedRecords(records: seq<RecordRow>, users: seq<UserRow>): (r: seq<OwnedRecord>)
    ensures |r| <= |records|
    decreases |records|
  {
    if records == [] then []
    else
      var older := OwnedRecords(records[..|records| - 1], users);
      match JoinRow(records[|records| - 1], users)
      case Some(row) => [row] + older
      case None => older
  }

  // ---------------------------------------------------------------------
  // Properties of the queries
  // ---------------------------------------------------------------------

  /** With unique usernames, the lookup by username finds the one row carrying that name. */
  lemma {:induction false} FindUserUnique(users: seq<UserRow>, i: nat)
    requires UniqueUsernames(users)
    requires i < |users|
    ensures FindUser(users, users[i].username) == Some(users[i])
  {
    if i > 0 {
      assert users[0].username != users[i].username;
      assert users[1..][i - 1] == users[i];
      FindUserUnique(users[1..], i - 1);
    }
  }

  /** With strictly growing ids, the lookup by id finds the one row carrying that id. */
  lemma {:induction false} FindUserByIdUnique(users: seq<UserRow>, i: nat)
    requires UserIdsAscending(users)
    requires i < |users|
    ensures FindUserById(users, users[i].id) == Some(users[i])
  {
    if i > 0 {
      assert users[0].id < users[i].id;
      assert users[1..][i - 1] == users[i];
      FindUserByIdUnique(users[1..], i - 1);
    }
  }

  /** A user's listing is newest first when the table's ids ascend. */
  lemma {:induction false} UserRecordsNewestFirst(records: seq<RecordRow>, userId: nat)
    requires RecordIdsAscending(records)
    ensures NewestFirst(UserRecords(records, userId))
    decreases |records|
  {
    if records != [] {
      var last := records[|records| - 1];
      var older := records[..|records| - 1];
      UserRecordsNewestFirst(older, userId);
      if last.userId == userId {
        OlderRecordsHaveSmallerIds(records);
        NewestFirstPrepend(last, UserRecords(older, userId));
      }
    }
  }

  /** In a table with ascending ids, every row but the newest has a smaller id than the newest. */
  lemma OlderRecordsHaveSmallerIds(records: seq<RecordRow>)
    requires RecordIdsAscending(records)
    requires records != []
    ensures forall x :: x in records[..|records| - 1] ==> x.id < records[|records| - 1].id
  {
    var older := records[..|records| - 1];
    forall x | x in older ensures x.id < records[|records| - 1].id {
      var k :| 0 <= k < |older| && older[k] == x;
      assert records[k] == x;
    }
  }

  /** A row with an id above every id of a newest-first listing can go in front of it. */
  lemma NewestFirstPrepend(x: RecordRow, rest: seq<RecordRow>)
    requires NewestFirst(rest)
    requires forall y :: y in rest ==> y.id < x.id
    ensures NewestFirst([x] + rest)
  {
    var r := [x] + rest;
    forall i, j | 0 <= i < j < |r| ensures r[i].id > r[j].id {
      if i == 0 {
        assert r[j] == rest[j - 1];
      } else {
        assert r[i] == rest[i - 1] && r[j] == rest[j - 1];
      }
    }
  }

  /**
    Later inserts only put rows in front of a listing: the rows a listing held
    stay in it, unchanged and in the same order, after any further records.
  */
  lemma {:induction false} UserRecordsAfterInserts(records: seq<RecordRow>, later: seq<RecordRow>, userId: nat)
    ensures UserRecords(records + later, userId) == UserRecords(later, userId) + UserRecords(records, userId)
    decreases |later|
  {
    if later == [] {
      assert records + later == records;
    } else {
      var all := records + later;
      var last := later[|later| - 1];
      var earlier := later[..|later| - 1];
      assert all[..|all| - 1] == records + earlier;
      assert all[|all| - 1] == last;
      UserRecordsAfterInserts(records, earlier, userId);
    }
  }

  /** A new record heads its owner's listing and leaves every other user's listing as it was. */
  lemma InsertHeadsOwnersListing(records: seq<RecordRow>, r: RecordRow, userId: nat)
    ensures userId == r.userId ==> UserRecords(records + [r], userId) == [r] + UserRecords(records, userId)
    ensures userId != r.userId ==> UserRecords(records + [r], userId) == UserRecords(records, userId)
  {
    assert (records + [r])[..|records|] == records;
  }

  /** Every record has a joined row. */
  ghost predicate OwnersFound(records: seq<RecordRow>, users: seq<UserRow>) {
    forall i :: 0 <= i < |records| ==> JoinRow(records[i], users).Some?
  }

  /** An owner that is stored is found by the join's lookup. */
  lemma OwnersExistAreFound(records: seq<RecordRow>, users: seq<UserRow>)
    requires OwnersExist(records, users)
    ensures OwnersFound(records, users)
  {
    forall i | 0 <= i < |records| ensures JoinRow(records[i], users).Some? {
      assert IdStored(users, records[i].userId);
      var j :| 0 <= j < |users| && users[j].id == records[i].userId;
      assert users[j] in users;
    }
  }

  /**
    When every owner exists the join drops nothing: its k-th row is the k-th
    newest record with its owner's username.
  */
  lemma OwnedRecordsAt(records: seq<RecordRow>, users: seq<UserRow>, k: nat)
    requires OwnersExist(records, users)
    requires k < |records|
    ensures |OwnedRecords(records, users)| == |records|
    ensures FindUserById(users, records[|records| - 1 - k].userId).Some?
    ensures OwnedRecords(records, users)[k] ==
      ToOwnedRecord(records[|records| - 1 - k], FindUserById(users, records[|records| - 1 - k].userId).value)
  {
    OwnersExistAreFound(records, users);
    JoinRowAt(records, users, k);
  }

  /** The inductive core of OwnedRecordsAt: the k-th row of the join is the k-th newest record's joined row. */
  lemma {:induction false} JoinRowAt(records: seq<RecordRow>, users: seq<UserRow>, k: nat)
    requires OwnersFound(records, users)
    requires k < |records|
    ensures |OwnedRecords(records, users)| == |records|
    ensures JoinRow(records[|records| - 1 - k], users).Some?
    ensures OwnedRecords(records, users)[k] == JoinRow(records[|records| - 1 - k], users).value
    decreases |records|
  {
    var n := |records|;
    var older := records[..n - 1];
    JoinLength(records, users);
    if k > 0 {
      OwnersFoundOlder(records, users);
      JoinRowAt(older, users, k - 1);
      assert older[n - 1 - k] == records[n - 1 - k];
    }
  }

  /** When every owner is found, the join has one row per record. */
  lemma {:induction false} JoinLength(records: seq<RecordRow>, users: seq<UserRow>)
    requires OwnersFound(records, users)
    ensures |OwnedRecords(records, users)| == |records|
    decreases |records|
  {
    if records != [] {
      OwnersFoundOlder(records, users);
      JoinLength(records[..|records| - 1], users);
    }
  }

  /** Without its newest row, a table still has every owner found. */
  lemma OwnersFoundOlder(records: seq<RecordRow>, users: seq<UserRow>)
    requires OwnersFound(records, users)
    requires records != []
    ensures OwnersFound(records[..|records| - 1], users)
  {
    var older := records[..|records| - 1];
    forall i | 0 <= i < |older| ensures JoinRow(older[i], users).Some? {
      assert older[i] == records[i];
    }
  }

  /** Adding a user keeps every record's owner in the table. */
  lemma OwnersSurviveNewUser(records: seq<RecordRow>, users: seq<UserRow>, u: UserRow)
    requires OwnersExist(records, users)
    ensures OwnersExist(records, users + [u])
  {
    var grown := users + [u];
    forall i | 0 <= i < |records| ensures IdStored(grown, records[i].userId) {
      assert IdStored(users, records[i].userId);
      var j :| 0 <= j < |users| && users[j].id == records[i].userId;
      assert grown[j] == users[j];
    }
  }

  /** A record whose owner is stored keeps every owner in the table. */
  lemma OwnersSurviveNewRecord(records: seq<RecordRow>, users: seq<UserRow>, r: RecordRow)
    requires OwnersExist(records, users)
    requires IdStored(users, r.userId)
    ensures OwnersExist(records + [r], users)
  {
    var grown := records + [r];
    forall i | 0 <= i < |grown| ensures IdStored(users, grown[i].userId) {
      if i < |records| {
        assert grown[i] == records[i];
      }
    }
  }

  /** The admin listing is newest first when every owner exists and the table's ids ascend. */
  lemma OwnedRecordsNewestFirst(records: seq<RecordRow>, users: seq<UserRow>)
    requires OwnersExist(records, users)
    requires RecordIdsAscending(records)
    ensures forall i, j :: 0 <= i < j < |OwnedRecords(records, users)| ==>
      OwnedRecords(records, users)[i].id > OwnedRecords(records, users)[j].id
  {
    var rows := OwnedRecords(records, users);
    forall i, j | 0 <= i < j < |rows| ensures rows[i].id > rows[j].id {
      OwnedRecordsAt(records, users, i);
      OwnedRecordsAt(records, users, j);
    }
  }
}

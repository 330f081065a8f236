/**
  The health coach's request handlers over its shared state: the users and
  records tables, their auto-increment counters, and the one session.

  Each handler returns the abstract outcome of its request: a redirect to one
  of the app's pages, a plain-text message, the structured unauthorized error
  of the analysis endpoint, or the content a page or JSON response renders.
  Password hashing is an external capability: registration receives the hash
  already computed, and login receives the hash-verification predicate.
*/
module HealthCoach {
  import opened RiskScorer
  import opened Tables

  /** The pages a handler can redirect to: `/login`, `/` and `/admin`. */
  datatype Page = LoginPage | HomePage | AdminPage

  /** The outcome of one request. */
  datatype Reply<+T> =
    | Redirect(to: Page)
    | Text(message: string)
    | Unauthorized
    | Render(content: T)

  /** The authenticated identity a session carries. */
  datatype Session = Session(userId: nat, username: string, role: Role)

  /** The JSON body the analysis endpoint returns. */
  datatype Assessment = Assessment(riskScore: int, riskLevel: string, recommendation: string)

  /** The content of the admin page. */
  datatype AdminView = AdminView(users: seq<UserSummary>, records: seq<OwnedRecord>)

  const UsernameTakenMessage: string := "Username already exists!"
  const InvalidCredentialsMessage: string := "Invalid credentials!"
  const AccessDeniedMessage: string := "Access Denied"

  /** The session a successful login establishes for a user. */
  function SessionOf(u: UserRow): Session {
    Session(u.id, u.username, u.role)
  }

  /** The role a new user gets, given the number of users before the insert. */
  function NewUserRole(userCount: nat): Role {
    if userCount == 0 then Admin else User
  }

  /**
    The count rule is what keeps exactly the first user admin: appending a
    row to a table where only the first user is admin keeps that so exactly
    when the row's role is the one the count rule picks.
  */
  lemma AdminIsFirstRegistrant(users: seq<UserRow>, row: UserRow)
    requires OnlyFirstIsAdmin(users)
    ensures OnlyFirstIsAdmin(users + [row]) <==> row.role == NewUserRole(|users|)
  {
    var grown := users + [row];
    if row.role == NewUserRole(|users|) {
      forall i | 0 <= i < |grown| ensures (grown[i].role == Admin <==> i == 0) {
        if i < |users| {
          assert grown[i] == users[i];
        }
      }
    } else {
      assert grown[|users|] == row;
    }
  }

  /**
    Authentication: the lookup by username followed by the hash check. An
    unknown user and a wrong password give the same result.
  */
  function Authenticate(users: seq<UserRow>, username: string, password: string,
                        check: (string, string) -> bool): (r: Option<Session>)
    ensures r.Some? ==> exists u :: u in users && u.username == username
                                 && check(u.passwordHash, password) && r.value == SessionOf(u)
  {
    match FindUser(users, username)
    case None => None
    case Some(u) => if check(u.passwordHash, password) then Some(SessionOf(u)) else None
  }

  /** With unique usernames, the right password for a stored user always authenticates as that user. */
  lemma AuthenticateComplete(users: seq<UserRow>, i: nat, password: string, check: (string, string) -> bool)
    requires UniqueUsernames(users)
    requires i < |users|
    requires check(users[i].passwordHash, password)
    ensures Authenticate(users, users[i].username, password, check) == Some(SessionOf(users[i]))
  {
    FindUserUnique(users, i);
  }

  /** A failed login attempt does not reveal whether the username exists. */
  lemma AuthenticateFailsAlike(users: seq<UserRow>, username: string, password: string,
                               check: (string, string) -> bool)
    ensures (forall u :: u in users ==> u.username != username) ==>
      Authenticate(users, username, password, check) == None
    ensures (forall u :: u in users && u.username == username ==> !check(u.passwordHash, password)) ==>
      Authenticate(users, username, password, check) == None
  {
  }

  /** The application state: both tables, their counters, and the session. */
  class App {
    var users: seq<UserRow>
    var records: seq<RecordRow>
    var nextUserId: nat
    var nextRecordId: nat
    var session: Option<Session>

    /**
      The tables keep their constraints and counters, the first user alone is
      admin, every record has an owner, and a session always stands for a stored user.
    */
    ghost predicate Valid()
      reads this
    {
      && UniqueUsernames(users)
      && UserIdsIssued(users, nextUserId)
      && OnlyFirstIsAdmin(users)
      && RecordIdsIssued(records, nextRecordId)
      && OwnersExist(records, users)
      && (session.Some? ==> exists j :: 0 <= j < |users| && session.value == SessionOf(users[j]))
    }

    /** Empty tables, as schema creation leaves them, and no session. */
    constructor ()
      ensures Valid()
      ensures users == [] && records == [] && session == None
      ensures nextUserId == 1 && nextRecordId == 1
    {
      users := [];
      records := [];
      nextUserId := 1;
      nextRecordId := 1;
      session := None;
    }

    /**
      Registration: count the users, pick the role, and insert unless the
      username is taken. Nothing else changes.
    */
    method Register(username: string, passwordHash: string) returns (reply: Reply<()>)
      requires Valid()
      modifies this`users, this`nextUserId
      ensures Valid()
      ensures FindUser(old(users), username).Some? ==>
        && reply == Text(UsernameTakenMessage)
        && users == old(users) && nextUserId == old(nextUserId)
      ensures FindUser(old(users), username).None? ==>
        && reply == Redirect(LoginPage)
        && users == old(users) + [UserRow(old(nextUserId), username, passwordHash, NewUserRole(|old(users)|))]
        && nextUserId == old(nextUserId) + 1
    {
      ghost var before := users;
      var userCount := |users|;
      var role := NewUserRole(userCount);
      if FindUser(users, username).Some? {
        // the UNIQUE constraint rejects the insert
        return Text(UsernameTakenMessage);
      }
      var row := UserRow(nextUserId, username, passwordHash, role);
      users := users + [row];
      nextUserId := nextUserId + 1;
      OwnersSurviveNewUser(records, before, row);
      AdminIsFirstRegistrant(before, row);
      assert session.Some? ==> exists j :: 0 <= j < |users| && session.value == SessionOf(users[j]) by {
        if session.Some? {
          var j :| 0 <= j < |before| && session.value == SessionOf(before[j]);
          assert users[j] == before[j];
        }
      }
      reply := Redirect(LoginPage);
    }

    /**
      Login: on success the session becomes the user's identity and the reply
      sends admins to the admin page and everyone else home; on failure the
      session is left as it was and the reply is one generic message.
    */
    method Login(username: string, password: string, check: (string, string) -> bool)
      returns (reply: Reply<()>)
      requires Valid()
      modifies this`session
      ensures Valid()
      ensures Authenticate(users, username, password, check).Some? ==>
        && session == Authenticate(users, username, password, check)
        && reply == Redirect(if session.value.role == Admin then AdminPage else HomePage)
      ensures Authenticate(users, username, password, check).None? ==>
        && session == old(session)
        && reply == Text(InvalidCredentialsMessage)
    {
      var user := FindUser(users, username);
      if user.Some? && check(user.value.passwordHash, password) {
        session := Some(SessionOf(user.value));
        ghost var j :| 0 <= j < |users| && users[j] == user.value;
        if user.value.role == Admin {
          return Redirect(AdminPage);
        }
        return Redirect(HomePage);
      }
      reply := Text(InvalidCredentialsMessage);
    }

    /** Logout clears the session and returns to the login page. */
    method Logout() returns (reply: Reply<()>)
      requires Valid()
      modifies this`session
      ensures Valid()
      ensures session == None
      ensures reply == Redirect(LoginPage)
    {
      session := None;
      reply := Redirect(LoginPage);
    }

    /** The home page greets the session's user; without a session it redirects to login. */
    method Home() returns (reply: Reply<string>)
      requires Valid()
      ensures session.None? ==> reply == Redirect(LoginPage)
      ensures session.Some? ==> reply == Render(session.value.username)
    {
      if session.None? {
        return Redirect(LoginPage);
      }
      reply := Render(session.value.username);
    }

    /**
      Analysis: without a session, the unauthorized error and no write.
      Otherwise the vitals are scored, exactly one record carrying the
      session user's id and the returned assessment is appended, and the
      assessment is returned.
    */
    method Analyze(v: Vitals, timestamp: string) returns (reply: Reply<Assessment>)
      requires Valid()
      modifies this`records, this`nextRecordId
      ensures Valid()
      ensures old(session).None? ==>
        && reply == Unauthorized
        && records == old(records) && nextRecordId == old(nextRecordId)
      ensures old(session).Some? ==>
        && reply == Render(Assessment(Score(v), Label(Classify(Score(v))), Advice(Classify(Score(v)))))
        && records == old(records) + [RecordRow(old(nextRecordId), session.value.userId, v,
                                                reply.content.riskScore, reply.content.riskLevel,
                                                reply.content.recommendation, timestamp)]
        && nextRecordId == old(nextRecordId) + 1
    {
      if session.None? {
        return Unauthorized;
      }
      var score, level, recommendation := Evaluate(v);
      var row := RecordRow(nextRecordId, session.value.userId, v, score, level, recommendation, timestamp);
      records := records + [row];
      nextRecordId := nextRecordId + 1;
      ghost var j :| 0 <= j < |users| && session.value == SessionOf(users[j]);
      assert users[j].id == row.userId;
      OwnersSurviveNewRecord(old(records), users, row);
      reply := Render(Assessment(score, level, recommendation));
    }

    /** The history page: the session user's records, newest first; without a session, a redirect to login. */
    method Records() returns (reply: Reply<seq<HistoryRow>>)
      requires Valid()
      ensures session.None? ==> reply == Redirect(LoginPage)
      ensures session.Some? ==> reply == Render(HistoryRows(UserRecords(records, session.value.userId)))
      ensures session.Some? ==> NewestFirst(UserRecords(records, session.value.userId))
    {
      if session.None? {
        return Redirect(LoginPage);
      }
      UserRecordsNewestFirst(records, session.value.userId);
      var rows := UserRecords(records, session.value.userId);
      reply := Render(HistoryRows(rows));
    }

    /**
      The admin page: for an admin session, every user and every record with
      its owner's name, newest first; for anyone else, the access-denied
      message and no data.
    */
    method AdminPanel() returns (reply: Reply<AdminView>)
      requires Valid()
      ensures reply == Text(AccessDeniedMessage) <==> session.None? || session.value.role != Admin
      ensures reply.Text? || reply.Render?
      ensures reply.Render? ==> reply.content == AdminView(UserSummaries(users), OwnedRecords(records, users))
      ensures reply.Render? ==> |reply.content.users| == |users| && |reply.content.records| == |records|
      ensures reply.Render? ==> forall i, j :: 0 <= i < j < |reply.content.records| ==>
        reply.content.records[i].id > reply.content.records[j].id
    {
      if session.None? || session.value.role != Admin {
        return Text(AccessDeniedMessage);
      }
      OwnersExistAreFound(records, users);
      JoinLength(records, users);
      OwnedRecordsNewestFirst(records, users);
      reply := Render(AdminView(UserSummaries(users), OwnedRecords(records, users)));
    }
  }

  // ---------------------------------------------------------------------
  // Properties of the application state
  // ---------------------------------------------------------------------

  /**
    In a valid state the admin page loses no record: its k-th row is the k-th
    newest record, carrying the username of the one user with the owner's id.
  */
  lemma AdminViewComplete(users: seq<UserRow>, records: seq<RecordRow>, k: nat)
    requires OwnersExist(records, users)
    requires UserIdsAscending(users)
    requires k < |records|
    ensures |OwnedRecords(records, users)| == |records|
    ensures forall j :: 0 <= j < |users| && users[j].id == records[|records| - 1 - k].userId ==>
      OwnedRecords(records, users)[k] == ToOwnedRecord(records[|records| - 1 - k], users[j])
  {
    OwnedRecordsAt(records, users, k);
    forall j | 0 <= j < |users| && users[j].id == records[|records| - 1 - k].userId
      ensures OwnedRecords(records, users)[k] == ToOwnedRecord(records[|records| - 1 - k], users[j])
    {
      FindUserByIdUnique(users, j);
    }
  }
}

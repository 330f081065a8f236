# Health coach — a Dafny model

The health coach is a small web application. Users register and log in. They submit four vitals: body-mass index, heart rate, hours of sleep and systolic blood pressure. A fixed set of rules turns these into a risk score, a risk level and a recommendation, and each submission is saved. Users can list their own past submissions, and the first user to register is an admin who can see every user and every record.

This project models the application's core in three modules, plus a module of client scenarios:

- `RiskScorer` (`scoring.dfy`) is the rule-based scorer. `Score` and `Classify` are the specification: the score is a sum of per-metric contributions, and the tier comes from the score's band. `Evaluate` is the handler's step-by-step code: `score += …` updates followed by an if/elif chain. It is proved equal to `Score` and to the tier's `Label` and `Advice`.
- `Tables` (`tables.dfy`) holds the `users` and `records` tables as sequences in insertion order, with their invariants. It also gives the handlers' queries as functions:
  - the lookup by username;
  - the per-user history listing, filtered by owner and ordered by id descending;
  - the admin listings, including the records joined with their owners' usernames.
- `HealthCoach` (`app.dfy`) has a class `App` whose fields are the two tables, their auto-increment counters and the single session, an optional (user id, username, role) triple. Each route handler is a method of `App`: `Register`, `Login`, `Logout`, `Home`, `Analyze`, `Records` and `AdminPanel`. Each one returns the abstract outcome of its request as a `Reply`: a redirect to a page, a plain-text message, the structured unauthorized error, or the content that is rendered. `App.Valid()` is the state invariant every handler keeps:
  - usernames are unique;
  - ids are positive, strictly increasing, and below the counter;
  - exactly the first user is admin;
  - every record's owner exists;
  - a session always stands for a stored user.
- `Scenarios` (`scenarios.dfy`) describes fixed sequences of requests against a fresh `App` and proves their replies from the handlers' contracts alone. In these sequences the stored hash is the password itself, and the hash check is plain equality.

External capabilities are passed in as parameters:

- `Register` receives the password hash already computed, because the hasher salts at random.
- `Login` receives the hash-verification predicate `check(storedHash, password)`.
- `Analyze` receives the timestamp string.

The model follows the code as written:

- A new user gets the admin role exactly when the users table is empty at the moment of registration. No user is ever deleted, so only the user with the smallest id is admin.
- Listings are ordered by id, and ids follow insertion order.
- The admin page answers "Access Denied" both without a session and for a non-admin session.
- A failed login leaves an existing session unchanged. The code does not clear it.
- The admin's user listing has no `ORDER BY`, so it is modelled in table order.

## Model

| member | source | states |
|---|---|---|
| RiskScorer.Evaluate | Desktop/health-coach/app.py:138-164 | The score the additive code builds equals the sum of the four contributions. The level and recommendation are the label and advice of that score's tier. |
| RiskScorer.Score | Desktop/health-coach/app.py:138-153 | Every score lies in 0..8. It is odd exactly when 25 < bmi ≤ 30, the only case that adds a single point. |
| RiskScorer.BmiContribution | Desktop/health-coach/app.py:141-144 | The bmi adds 2 exactly when bmi > 30, 1 exactly when 25 < bmi ≤ 30, and 0 exactly when bmi ≤ 25. |
| RiskScorer.TierByRiskFactors | Desktop/health-coach/app.py:138-164 | The score is twice the number of crossed two-point thresholds, plus one in the 25 < bmi ≤ 30 band. The tier is High exactly when at least three of the four two-point thresholds are crossed, so the one-point band never makes a High. It is Low exactly when none is crossed, or one is and the bmi is outside the one-point band. |
| RiskScorer.ScoreMonotone | Desktop/health-coach/app.py:138-153 | Higher bmi, heart rate and pressure, and less sleep, never lower the score or the tier. |
| RiskScorer.ThresholdsAreStrict | Desktop/health-coach/app.py:141-153 | Values exactly on a threshold add nothing. Bmi 30 adds only 1. |
| RiskScorer.TierBands | Desktop/health-coach/app.py:156-164 | The tier is Low exactly for scores ≤ 2, Moderate exactly for 3..5 and High exactly for ≥ 6, which partitions 0..8. |
| RiskScorer.ClassifyMonotone | Desktop/health-coach/app.py:156-164 | A higher score never gets a less severe tier. |
| RiskScorer.TextsIdentifyTier | Desktop/health-coach/app.py:156-164 | Distinct tiers have distinct level strings and distinct recommendations, so each tier has its own label and its own recommendation. |
| RiskScorer.EveryTierReachable | Desktop/health-coach/app.py:138-164 | Each of the three tiers is produced by some vitals. |
| RiskScorer.ScoreExamples | Desktop/health-coach/app.py:138-164 | (32, 110, 5, 150) scores 8, which is High Risk. (22, 70, 8, 110) scores 0 and (27, 95, 7, 120) scores 1, both Low Risk. |
| Tables.FindUser | Desktop/health-coach/app.py:90-91 | The lookup returns a stored row with exactly that username, or nothing exactly when no row has it. |
| Tables.FindUserUnique | Desktop/health-coach/app.py:18-24 | Under the UNIQUE constraint, the lookup by a stored username returns that user's row. |
| Tables.FindUserById | Desktop/health-coach/app.py:232-235 | The join partner is a stored row with that id, or nothing exactly when no row has it. |
| Tables.FindUserByIdUnique | Desktop/health-coach/app.py:18-24 | With auto-increment ids, the lookup by a stored user's id returns that user's row. |
| Tables.UserRecords | Desktop/health-coach/app.py:204-209 | A record is in a user's listing exactly when it is in the table and owned by that user. |
| Tables.UserRecordsNewestFirst | Desktop/health-coach/app.py:204-209 | When table ids ascend, a user's listing has strictly descending ids. |
| Tables.UserRecordsAfterInserts | Desktop/health-coach/app.py:170-186 | Records added later go only in front of a listing. The records already listed stay in it, unchanged and in the same order. |
| Tables.InsertHeadsOwnersListing | Desktop/health-coach/app.py:170-186 | A new record becomes the first row of its owner's listing. It leaves every other user's listing unchanged. |
| Tables.OwnedRecords | Desktop/health-coach/app.py:232-238 | The inner join never has more rows than the records table. |
| Tables.OwnedRecordsAt | Desktop/health-coach/app.py:232-238 | When every owner exists, the join drops nothing. Its k-th row is the k-th newest record, with its owner's username. |
| Tables.OwnedRecordsNewestFirst | Desktop/health-coach/app.py:232-238 | When every owner exists and ids ascend, the admin's record listing has strictly descending ids. |
| Tables.OwnersSurviveNewUser | Desktop/health-coach/app.py:66-69 | Inserting a user leaves every record's owner in the table. |
| Tables.OwnersSurviveNewRecord | Desktop/health-coach/app.py:170-186 | Appending a record whose owner is stored keeps every record's owner in the table. |
| Tables.OwnersExistAreFound | Desktop/health-coach/app.py:232-238 | When every record's owner is stored, the join finds a partner row for every record. |
| Tables.JoinLength | Desktop/health-coach/app.py:232-238 | When the join finds a partner for every record, it has exactly one row per record. |
| Tables.JoinRowAt | Desktop/health-coach/app.py:232-238 | When the join finds a partner for every record, its k-th row is the joined row of the k-th newest record. |
| HealthCoach.AdminIsFirstRegistrant | Desktop/health-coach/app.py:61-69 | If only the first user is admin, appending a row keeps it so exactly when the row gets the role the count rule picks: admin when the table was empty, user otherwise. |
| HealthCoach.Authenticate | Desktop/health-coach/app.py:90-104 | A session is produced only for a stored user with that username whose hash check passes, and it is that user's (id, username, role). |
| HealthCoach.AuthenticateComplete | Desktop/health-coach/app.py:90-97 | With unique usernames, the right password for a stored user authenticates as exactly that user. |
| HealthCoach.AuthenticateFailsAlike | Desktop/health-coach/app.py:94-104 | An unknown username and a wrong password give the same failure. |
| HealthCoach.App.constructor | Desktop/health-coach/app.py:12-45 | The first start, with no database file yet: both tables empty, both counters at 1 and no session. The invariant holds. |
| HealthCoach.App.Register | Desktop/health-coach/app.py:52-76 | Taken username: "Username already exists!", with the users table and counter unchanged. Otherwise exactly one row is appended, with the next id and the hash; its role is admin exactly when the table was empty. The reply redirects to login. The records and session are untouched. |
| HealthCoach.App.Login | Desktop/health-coach/app.py:82-104 | On success the session becomes the authenticated user's triple, and the reply redirects admins to /admin and others to /. On failure the session is unchanged and the reply is "Invalid credentials!". |
| HealthCoach.App.Logout | Desktop/health-coach/app.py:109-112 | The session is cleared and the reply redirects to login. |
| HealthCoach.App.Home | Desktop/health-coach/app.py:119-123 | Without a session, a redirect to login. Otherwise the page shows the session's username. |
| HealthCoach.App.Analyze | Desktop/health-coach/app.py:127-193 | Without a session: Unauthorized, with the records table and counter unchanged. With one: the reply is the vitals' score, level and recommendation. Exactly one record is appended, carrying the next id, the session user's id, the vitals, the same three values and the timestamp. |
| HealthCoach.App.Records | Desktop/health-coach/app.py:196-214 | Without a session, a redirect to login. Otherwise the history rows of exactly the session user's records, and that listing has strictly descending ids. |
| HealthCoach.App.AdminPanel | Desktop/health-coach/app.py:221-242 | The reply is "Access Denied" exactly when there is no session or the role is not admin, and then no data goes out. Otherwise it holds all users and all records joined with their owners' names: one row per user, one row per record, record ids strictly descending. |
| HealthCoach.AdminViewComplete | Desktop/health-coach/app.py:232-238 | When every owner exists and user ids ascend, the admin listing has one row per record. Its k-th row is the k-th newest record, carrying the username of the one user with the owner's id. |
| Scenarios.RegistrationScenario | Desktop/health-coach/app.py:51-78 | On a fresh database the first registrant becomes admin, the same username again gets "Username already exists!", and a second registrant becomes a plain user. |
| Scenarios.AnonymousAnalysisScenario | Desktop/health-coach/app.py:126-129 | Before any login, the analysis endpoint answers unauthorized and stores nothing. |
| Scenarios.AdminSignedIn | Desktop/health-coach/app.py:51-106 | After two registrations and the first user's login, the tables hold the two users with ids 1 and 2, and only the first is admin. No record is stored, and the session is the first user's. |
| Scenarios.AnalysisScenario | Desktop/health-coach/app.py:126-214 | The admin submits (32, 110, 5, 150) and gets score 8, "High Risk" and the high-risk advice. Their history is then exactly that one submission. |
| Scenarios.OtherUserScenario | Desktop/health-coach/app.py:81-242 | After the admin has stored an analysis, the second user's login sends them home. Their history is empty, and the admin page is denied to them. |
| Scenarios.FailedLoginScenario | Desktop/health-coach/app.py:81-123 | A wrong password and an unknown username both get "Invalid credentials!". Afterwards the home page still redirects to login. |

## Left out

- HTTP routing, templates, `redirect`, `jsonify` and status codes: presentation. Only the abstract outcome of each request is modelled, as `Reply`.
- GET requests of `/register` and `/login`: they only render forms.
- Malformed requests: a missing form field, a missing or non-JSON body, a missing vitals key, or a value `float()` cannot convert. The handler raises on these accesses (app.py:54-55, 84-85, 131-136) before it writes anything. In `analyze` that happens after the session check, so an anonymous request still gets the unauthorized reply. The model takes well-formed inputs only.
- SQLite itself: connections, SQL text and the schema statements of `init_db`. The tables are sequences, and a counter per table stands for AUTOINCREMENT. A rejected insert does not advance the counter. The constructor stands for the first start, when there is no `health.db` yet. `init_db` runs at every start but only creates missing tables (`CREATE TABLE IF NOT EXISTS`). A restart therefore keeps every row and the AUTOINCREMENT state, and continues from the persisted state, which satisfies `Valid()`. Restarts are not modelled as an operation.
- Password hashing: `generate_password_hash` is an input (the stored hash), and `check_password_hash` is an opaque `check` parameter. "Only the hash is stored" is therefore not a property the model can state.
- The clock: `datetime.now()` is replaced by the `timestamp` parameter. Its format is not modelled.
- Parsing: `float()` coercion of the JSON fields, and NaN and other IEEE corner cases. The vitals are exact reals.
- Per-client cookie sessions and concurrent requests: one session and one request at a time are modelled.
- The hard-coded secret key and the development-server start at the end of the file.

/**
  Client-side sequences of requests against a fresh application, proved from
  the handlers' contracts alone.
*/
module Scenarios {
  import opened RiskScorer
  import opened Tables
  import opened HealthCoach

  /** A stand-in for the hash check in these scenarios: the stored hash is the password itself. */
  function PlainCheck(stored: string, given: string): bool {
    stored == given
  }

  /**
    On a fresh database the first registrant becomes admin, registering the
    same username again is refused, and a later registrant is a plain user.
  */
  method RegistrationScenario(first: string, second: string, hash1: string, hash2: string, hash3: string)
    returns (replies: seq<Reply<()>>, roles: seq<Role>)
    requires first != second
    ensures replies == [Redirect(LoginPage), Text(UsernameTakenMessage), Redirect(LoginPage)]
    ensures roles == [Admin, User]
  {
    var app := new App();
    var r1 := app.Register(first, hash1);
    var r2 := app.Register(first, hash2);
    var r3 := app.Register(second, hash3);
    replies := [r1, r2, r3];
    roles := [app.users[0].role, app.users[1].role];
  }

  /** Before any login the analysis endpoint answers unauthorized and stores nothing. */
  method AnonymousAnalysisScenario(name: string, password: string, v: Vitals, timestamp: string)
    returns (reply: Reply<Assessment>, stored: nat)
    ensures reply == Unauthorized
    ensures stored == 0
  {
    var app := new App();
    var _ := app.Register(name, password);
    reply := app.Analyze(v, timestamp);
    stored := |app.records|;
  }

  /**
    Two registrations on a fresh database followed by the first user's login:
    the state every later scenario starts from.
  */
  method AdminSignedIn(name: string, other: string, password: string) returns (app: App)
    requires name != other
    ensures fresh(app) && app.Valid()
    ensures app.users == [UserRow(1, name, password, Admin), UserRow(2, other, password, User)]
    ensures app.records == [] && app.nextRecordId == 1
    ensures app.session == Some(Session(1, name, Admin))
  {
    var check := PlainCheck;
    app := new App();
    var _ := app.Register(name, password);
    var _ := app.Register(other, password);
    assert app.users == [UserRow(1, name, password, Admin), UserRow(2, other, password, User)];
    AuthenticateComplete(app.users, 0, password, check);
    var _ := app.Login(name, password, check);
  }

  /**
    After login the analysis is scored, stored once for the session's user,
    and listed in that user's history.
  */
  method AnalysisScenario(name: string, other: string, password: string, timestamp: string)
    returns (reply: Reply<Assessment>, history: Reply<seq<HistoryRow>>)
    requires name != other
    ensures reply == Render(Assessment(8, "High Risk", HighAdvice))
    ensures history == Render([HistoryRow(32.0, 110.0, 5.0, 150.0, 8, "High Risk", timestamp)])
  {
    var vitals := Vitals(32.0, 110.0, 5.0, 150.0);
    var app := AdminSignedIn(name, other, password);
    assert Score(vitals) == 8 && Classify(8) == High;
    reply := app.Analyze(vitals, timestamp);
    var saved := RecordRow(1, 1, vitals, 8, HighLabel, HighAdvice, timestamp);
    assert app.records == [saved];
    history := app.Records();
    assert UserRecords([saved], 1) == [saved];
    assert HistoryRows([saved]) == [ToHistoryRow(saved)];
  }

  /**
    After the first user has stored an analysis, the second user logs in: they
    are sent home, see none of the first user's records, and are denied the
    admin page.
  */
  method OtherUserScenario(name: string, other: string, password: string, v: Vitals, timestamp: string)
    returns (login: Reply<()>, history: Reply<seq<HistoryRow>>, admin: Reply<AdminView>)
    requires name != other
    ensures login == Redirect(HomePage)
    ensures history == Render([])
    ensures admin == Text(AccessDeniedMessage)
  {
    var check := PlainCheck;
    var app := AdminSignedIn(name, other, password);
    var _ := app.Analyze(v, timestamp);
    ghost var saved := app.records;
    assert |saved| == 1 && saved[0].userId == 1;
    AuthenticateComplete(app.users, 1, password, check);
    login := app.Login(other, password, check);
    assert app.session == Some(Session(2, other, User));
    history := app.Records();
    assert UserRecords(saved, 2) == [];
    assert HistoryRows([]) == [];
    admin := app.AdminPanel();
  }

  /** A wrong password and an unknown username get the same reply, and neither opens a session. */
  method FailedLoginScenario(name: string, unknown: string, password: string, wrong: string)
    returns (wrongPassword: Reply<()>, unknownUser: Reply<()>, home: Reply<string>)
    requires name != unknown && password != wrong
    ensures wrongPassword == unknownUser == Text(InvalidCredentialsMessage)
    ensures home == Redirect(LoginPage)
  {
    var check := PlainCheck;
    var app := new App();
    var _ := app.Register(name, password);
    wrongPassword := app.Login(name, wrong, check);
    unknownUser := app.Login(unknown, password, check);
    home := app.Home();
  }
}

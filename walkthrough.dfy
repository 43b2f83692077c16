/**
 * The life of one account through every flow, on a fresh gateway: register,
 * log in with the bootstrap token, ask for a reset link, reset the password,
 * then log in by email with the old and the new password. Clock times are in
 * seconds.
 */
module Walkthrough {
  import opened Wrappers
  import opened Records
  import opened Tokens
  import opened Credentials
  import opened Flows
  import opened Gateway

  function Alice(): Person {
    NewPerson("Alice", "a@x.com", "pw1")
  }

  function BootstrapToken(): Token {
    Token(0, Some(POST_REGISTRATION), 1000, 1300)
  }

  function ResetToken(): Token {
    Token(0, None, 1030, 1930)
  }

  /** Registration, then the bootstrap token used twice within its window and once after it. */
  method SignUp(g: AuthGateway) returns (registered: Response, bootstrap: Response, reused: Response, expired: Response)
    requires g.Valid() && g.store == map[] && g.nextId == 0 && g.issued == {} && g.outbox == []
    modifies g
    ensures g.Valid() && g.store == map[0 := Alice()] && g.nextId == 1 && g.outbox == []
    ensures BootstrapToken() in g.issued
    ensures registered == Ok(Registered(REGISTERED, 0, BootstrapToken()))
    ensures bootstrap == Ok(SessionStarted(LOGGED_IN, Cookie(SESSION_COOKIE, Token(0, None, 1010, 4610), true, 3600000)))
    ensures reused.Ok?
    ensures expired == Err(401, BOOTSTRAP_REJECTED)
  {
    NewPersonCredentials("Alice", "a@x.com", "pw1");
    registered := g.Register(RegisterRequest(Some("Alice"), Some("a@x.com"), Some("pw1")), 1000, true);
    var t1 := BootstrapToken();
    assert g.issued == {t1} && g.nextId == 1;
    assert CheckPassword(Alice(), "pw1").None?;
    bootstrap := g.Login(LoginRequest(None, Some("pw1"), Some(t1)), 1010);
    assert LoginDecision(g.store, 1, g.issued, LoginRequest(None, Some("pw1"), Some(t1)), 1299) == Proceed(0);
    reused := g.Login(LoginRequest(None, Some("pw1"), Some(t1)), 1299);
    expired := g.Login(LoginRequest(None, Some("pw1"), Some(t1)), 1300);
  }

  /** A second registration of the same email, and the forgot flow mailing a reset link. */
  method Forget(g: AuthGateway) returns (duplicate: Response, linkSent: Response)
    requires g.Valid() && g.store == map[0 := Alice()] && g.nextId == 1 && g.outbox == []
    modifies g
    ensures g.Valid() && g.store == map[0 := Alice()] && g.nextId == 1
    ensures ResetToken() in g.issued
    ensures g.outbox == [Mail("a@x.com", Link(LinkPage(Forgot), ResetToken()))]
    ensures duplicate == Err(409, EMAIL_TAKEN)
    ensures linkSent == Ok(Notice(LINK_SENT))
  {
    NewPersonCredentials("Alice", "a@x.com", "pw1");
    assert Matches(g.store, 0, EMAIL_SYSTEM, "a@x.com");
    duplicate := g.Register(RegisterRequest(Some("Alias"), Some("a@x.com"), Some("other")), 1020, true);
    assert Search(g.store, EMAIL_SYSTEM, "a@x.com", 1) == [0];
    linkSent := g.RequestResetLink(Forgot, EmailRequest(Some("a@x.com")), 1030, true);
  }

  /** The reset with the mailed token. */
  method Reset(g: AuthGateway) returns (reset: Response)
    requires g.Valid() && g.store == map[0 := Alice()] && g.nextId == 1 && ResetToken() in g.issued
    modifies g
    ensures g.Valid() && g.store == map[0 := Rotated(Alice(), Hash("pw2"))] && g.nextId == 1
    ensures reset == Ok(Notice(PASSWORD_UPDATED))
  {
    reset := g.ResetPassword(ResetRequest(Some(ResetToken()), Some("pw2")), 1040, true);
  }

  /** The login decisions on the store the reset left behind. */
  lemma AfterResetDecisions(issued: set<Token>)
    ensures LoginDecision(map[0 := Rotated(Alice(), Hash("pw2"))], 1, issued, LoginRequest(Some("a@x.com"), Some("pw1"), None), 1050)
         == Stop(Err(401, BAD_CREDENTIALS))
    ensures LoginDecision(map[0 := Rotated(Alice(), Hash("pw2"))], 1, issued, LoginRequest(Some("a@x.com"), Some("pw2"), None), 1050)
         == Proceed(0)
  {
    ResetThenLogin(map[0 := Alice()], 1, issued, "a@x.com", "pw1", "pw2", 1050);
    NewPersonCredentials("Alice", "a@x.com", "pw1");
    assert Search(map[0 := Alice()], EMAIL_SYSTEM, "a@x.com", 1) == [0];
    assert map[0 := Alice()][0 := Rotated(Alice(), Hash("pw2"))] == map[0 := Rotated(Alice(), Hash("pw2"))];
  }

  /** Login by email after the reset: the old password is refused and the new one accepted. */
  method SignIn(g: AuthGateway) returns (oldPassword: Response, newPassword: Response)
    requires g.Valid() && g.store == map[0 := Rotated(Alice(), Hash("pw2"))] && g.nextId == 1
    modifies g
    ensures oldPassword == Err(401, BAD_CREDENTIALS)
    ensures newPassword == Ok(SessionStarted(LOGGED_IN, Cookie(SESSION_COOKIE, Token(0, None, 1050, 4650), true, 3600000)))
  {
    AfterResetDecisions(g.issued);
    oldPassword := g.Login(LoginRequest(Some("a@x.com"), Some("pw1"), None), 1050);
    newPassword := g.Login(LoginRequest(Some("a@x.com"), Some("pw2"), None), 1050);
  }

  method AliceLifecycle() returns (registered: Response, bootstrap: Response, reused: Response, expired: Response,
                                   duplicate: Response, linkSent: Response, reset: Response, oldPassword: Response,
                                   newPassword: Response)
    ensures registered == Ok(Registered(REGISTERED, 0, Token(0, Some(POST_REGISTRATION), 1000, 1300)))
    ensures bootstrap == Ok(SessionStarted(LOGGED_IN, Cookie(SESSION_COOKIE, Token(0, None, 1010, 4610), true, 3600000)))
    ensures reused.Ok?
    ensures expired == Err(401, BOOTSTRAP_REJECTED)
    ensures duplicate == Err(409, EMAIL_TAKEN)
    ensures linkSent == Ok(Notice(LINK_SENT))
    ensures reset == Ok(Notice(PASSWORD_UPDATED))
    ensures oldPassword == Err(401, BAD_CREDENTIALS)
    ensures newPassword == Ok(SessionStarted(LOGGED_IN, Cookie(SESSION_COOKIE, Token(0, None, 1050, 4650), true, 3600000)))
  {
    var g := new AuthGateway();
    registered, bootstrap, reused, expired := SignUp(g);
    duplicate, linkSent := Forget(g);
    reset := Reset(g);
    oldPassword, newPassword := SignIn(g);
  }
}

/**
 * The expression-level decisions of the authentication handlers: input
 * validation, the choice between the two login paths, the token and password
 * checks and the mapping of each failure onto a status code and message.
 * Each decision either stops the handler with a response (an early `return`)
 * or lets it proceed with the account it resolved.
 */
module Flows {
  import opened Wrappers
  import opened Records
  import opened Tokens
  import opened Credentials

  // ---- Requests: a body field is absent (None) or a string; a token field
  // ---- carries the claims of the presented token.

  datatype RegisterRequest = RegisterRequest(name: Option<string>, email: Option<string>, password: Option<string>)
  datatype LoginRequest = LoginRequest(email: Option<string>, password: Option<string>, postRegistrationToken: Option<Token>)
  datatype EmailRequest = EmailRequest(email: Option<string>)
  datatype ResetRequest = ResetRequest(token: Option<Token>, password: Option<string>)

  /** A string field passes the source's `!field` test: it is there and not empty. */
  predicate Present(field: Option<string>): (r: bool)
    ensures r <==> field.Some? && |field.value| > 0
  {
    field.Some? && field.value != ""
  }

  // ---- Responses

  /** The session cookie: `res.cookie('token', token, { httpOnly: true, maxAge })`, `maxAge` in milliseconds. */
  datatype Cookie = Cookie(name: string, token: Token, httpOnly: bool, maxAgeMs: int)

  /** A reset link: the page it opens and the token in its `?token=` query. */
  datatype Link = Link(page: string, token: Token)

  /** A message handed to the mailer. */
  datatype Mail = Mail(to: string, link: Link)

  datatype Payload =
    | Registered(message: string, personId: Id, postRegistrationToken: Token)
    | SessionStarted(message: string, cookie: Cookie)
    | Notice(message: string)

  /** A 200 response with its JSON body, or an error status with its `error` string. */
  datatype Response = Ok(payload: Payload) | Err(status: int, error: string)

  /** The result of a decision: stop with a response, or proceed with a value. */
  datatype Outcome<T> = Stop(response: Response) | Proceed(value: T)

  const SESSION_COOKIE := "token"
  const SESSION_COOKIE_MAX_AGE_MS := 3600000

  const REGISTER_MISSING := "姓名、Email 和密碼皆為必填"
  const EMAIL_TAKEN := "此 Email 已註冊"
  const REGISTER_UPSTREAM := "連接 FHIR 錯誤"
  const REGISTERED := "註冊成功"
  const LOGIN_MISSING := "缺少必要參數"
  const BOOTSTRAP_UNKNOWN := "無效的註冊後權杖"
  const BOOTSTRAP_REJECTED := "註冊後權杖無效或已過期"
  const BAD_CREDENTIALS := "Email 或密碼錯誤"
  const MISCONFIGURED := "帳號設定有誤"
  const LOGIN_ERROR := "登入過程發生錯誤"
  const LOGGED_IN := "登入成功"
  const EMAIL_MISSING := "請輸入 Email"
  const NO_SUCH_ACCOUNT := "查無此帳號"
  const LINK_SENT := "已寄出重設密碼連結"
  const FORGOT_SEND_FAILED := "寄信失敗"
  const REQUEST_RESET_SEND_FAILED := "寄送重設連結失敗"
  const RESET_MISSING := "缺少必要資料"
  const RESET_FAILED := "重設失敗"
  const PASSWORD_UPDATED := "密碼已更新"

  // ---- Register

  /** The resource register creates: the name, the email and password-hash identifiers, and an email contact point. */
  function NewPerson(name: string, email: string, password: string): (p: Person)
    ensures p.name == [name] && p.telecom == [ContactPoint("email", email, "home")]
    ensures p.identifier.Some? && |p.identifier.value| == 2
    ensures p.identifier.value[0] == Identifier(EMAIL_SYSTEM, email)
    ensures p.identifier.value[1] == Identifier(PASSWORD_SYSTEM, Hash(password))
  {
    Person([name],
           Some([Identifier(EMAIL_SYSTEM, email), Identifier(PASSWORD_SYSTEM, Hash(password))]),
           [ContactPoint("email", email, "home")])
  }

  /** A new account is found by its email, and its password lookup yields the hash of its password. */
  lemma NewPersonCredentials(name: string, email: string, password: string)
    ensures var p := NewPerson(name, email, password);
      HasIdentifier(p, EMAIL_SYSTEM, email) &&
      p.identifier.Some? && FindValue(p.identifier.value, PASSWORD_SYSTEM) == Some(Hash(password)) &&
      Count(p.identifier.value, PASSWORD_SYSTEM) == 1
  {
    var ids := NewPerson(name, email, password).identifier.value;
    assert ids[0].system != PASSWORD_SYSTEM;
    assert FirstIndex(ids, PASSWORD_SYSTEM) == 1;
  }

  /** The checks register makes before creating the account: missing fields, then a taken email. */
  function RegisterCheck(store: Store, bound: nat, req: RegisterRequest): (r: Outcome<()>)
    ensures r == Stop(Err(400, REGISTER_MISSING)) <==>
              !Present(req.name) || !Present(req.email) || !Present(req.password)
    ensures r == Stop(Err(409, EMAIL_TAKEN)) <==>
              Present(req.name) && Present(req.email) && Present(req.password) &&
              exists id: Id :: id < bound && Matches(store, id, EMAIL_SYSTEM, req.email.value)
    ensures r.Stop? ==> r == Stop(Err(400, REGISTER_MISSING)) || r == Stop(Err(409, EMAIL_TAKEN))
  {
    if !Present(req.name) || !Present(req.email) || !Present(req.password) then
      Stop(Err(400, REGISTER_MISSING))
    else
      var hits := Search(store, EMAIL_SYSTEM, req.email.value, bound);
      if |hits| > 0 then
        assert hits[0] < bound && Matches(store, hits[0], EMAIL_SYSTEM, req.email.value);
        Stop(Err(409, EMAIL_TAKEN))
      else
        Proceed(())
  }

  /** Once an email is registered, registering it again is refused with 409, whatever the name and password. */
  lemma SecondRegistrationConflicts(store: Store, bound: nat, name: string, email: string, password: string, req: RegisterRequest)
    requires bound !in store
    requires Present(req.name) && Present(req.password) && req.email == Some(email) && email != ""
    ensures RegisterCheck(store[bound := NewPerson(name, email, password)], bound + 1, req) == Stop(Err(409, EMAIL_TAKEN))
  {
    NewPersonCredentials(name, email, password);
    assert Matches(store[bound := NewPerson(name, email, password)], bound, EMAIL_SYSTEM, email);
  }

  /** Registering an account leaves the email search for every other address as it was. */
  lemma RegistrationKeepsOtherSearches(store: Store, id: Id, name: string, email: string, password: string, other: string)
    requires Bounded(store, id) && other != email
    ensures Search(store[id := NewPerson(name, email, password)], EMAIL_SYSTEM, other, id + 1)
         == Search(store, EMAIL_SYSTEM, other, id)
  {
    var p := NewPerson(name, email, password);
    SearchAfterCreate(store, id, p, EMAIL_SYSTEM, other, id);
    assert !HasIdentifier(p, EMAIL_SYSTEM, other);
  }

  // ---- Login

  /** Which path login takes: the bootstrap token wins over the email. */
  datatype LoginPath = MissingFields | ViaBootstrap(token: Token) | ViaEmail(email: string)

  function ChooseLoginPath(req: LoginRequest): (p: LoginPath)
    ensures p.MissingFields? <==> !Present(req.password) || (!Present(req.email) && req.postRegistrationToken.None?)
    ensures p.ViaBootstrap? <==> Present(req.password) && req.postRegistrationToken.Some?
    ensures p.ViaBootstrap? ==> p.token == req.postRegistrationToken.value
    ensures p.ViaEmail? ==> req.postRegistrationToken.None? && Present(req.email) && p.email == req.email.value
  {
    if !Present(req.password) || (!Present(req.email) && req.postRegistrationToken.None?) then MissingFields
    else if req.postRegistrationToken.Some? then ViaBootstrap(req.postRegistrationToken.value)
    else ViaEmail(req.email.value)
  }

  /** The bootstrap token is accepted iff it verifies and declares the post-registration purpose. */
  predicate BootstrapAccepted(issued: set<Token>, t: Token, now: int): (r: bool)
    ensures r <==> t in issued && now < t.expiresAt && t.purpose == Some(POST_REGISTRATION)
  {
    var payload := Verify(issued, t, now);
    payload.Some? && payload.value.purpose == Some(POST_REGISTRATION)
  }

  /** Login's account resolution, by the token's subject or by the first account with the email. */
  function ResolveLogin(store: Store, bound: nat, issued: set<Token>, path: LoginPath, now: int): (r: Outcome<Id>)
    requires !path.MissingFields?
    ensures r.Proceed? ==> r.value in store
    ensures path.ViaBootstrap? ==>
              (r.Proceed? <==> BootstrapAccepted(issued, path.token, now) && path.token.subject in store) &&
              (r.Proceed? ==> r.value == path.token.subject) &&
              (r.Stop? ==> r.response.Err? && r.response.status == 401)
    ensures path.ViaEmail? ==>
              (r.Stop? <==> forall id: Id :: id < bound ==> !Matches(store, id, EMAIL_SYSTEM, path.email)) &&
              (r.Stop? ==> r.response == Err(401, BAD_CREDENTIALS)) &&
              (r.Proceed? ==> Matches(store, r.value, EMAIL_SYSTEM, path.email) &&
                              forall id: Id :: id < bound && Matches(store, id, EMAIL_SYSTEM, path.email) ==> r.value <= id)
  {
    match path
    case ViaBootstrap(t) =>
      if !BootstrapAccepted(issued, t, now) then Stop(Err(401, BOOTSTRAP_REJECTED))
      else if t.subject !in store then Stop(Err(401, BOOTSTRAP_UNKNOWN))
      else Proceed(t.subject)
    case ViaEmail(email) =>
      var hits := Search(store, EMAIL_SYSTEM, email, bound);
      if |hits| == 0 then Stop(Err(401, BAD_CREDENTIALS))
      else
        assert forall k :: 0 < k < |hits| ==> hits[0] < hits[k];
        Proceed(hits[0])
  }

  /**
   * Login's common tail on the resolved account: a resource without an
   * identifier list makes `.find` throw (500), a missing password identifier
   * is 401 "misconfigured", and otherwise the password is compared with the
   * first password identifier. None means the password is accepted.
   */
  function CheckPassword(p: Person, password: string): (r: Option<Response>)
    ensures r.None? <==> p.identifier.Some? && var ids := p.identifier.value;
              var k := FirstIndex(ids, PASSWORD_SYSTEM); k < |ids| && ids[k].value == Hash(password)
    ensures r.Some? ==> r.value in {Err(500, LOGIN_ERROR), Err(401, MISCONFIGURED), Err(401, BAD_CREDENTIALS)}
    ensures r == Some(Err(401, MISCONFIGURED)) <==>
              p.identifier.Some? && Count(p.identifier.value, PASSWORD_SYSTEM) == 0
    ensures r == Some(Err(500, LOGIN_ERROR)) <==> p.identifier.None?
    ensures r == Some(Err(401, BAD_CREDENTIALS)) <==>
              p.identifier.Some? && var digest := FindValue(p.identifier.value, PASSWORD_SYSTEM);
              digest.Some? && !Compare(password, digest.value)
  {
    if p.identifier.None? then Some(Err(500, LOGIN_ERROR))
    else
      match FindValue(p.identifier.value, PASSWORD_SYSTEM)
      case None => Some(Err(401, MISCONFIGURED))
      case Some(digest) => if Compare(password, digest) then None else Some(Err(401, BAD_CREDENTIALS))
  }

  /** The whole login decision: the id to open a session for, or the response to stop with. */
  function LoginDecision(store: Store, bound: nat, issued: set<Token>, req: LoginRequest, now: int): (r: Outcome<Id>)
    ensures r.Proceed? ==> r.value in store
    ensures r == Stop(Err(400, LOGIN_MISSING)) <==> ChooseLoginPath(req).MissingFields?
    ensures r.Proceed? ==> Present(req.password) && PasswordIs(store[r.value], req.password.value)
    ensures !ChooseLoginPath(req).MissingFields? ==>
              var resolved := ResolveLogin(store, bound, issued, ChooseLoginPath(req), now);
              (resolved.Stop? ==> r == resolved) &&
              (resolved.Proceed? ==>
                 (r.Proceed? ==> r.value == resolved.value) &&
                 (r.Stop? ==> Some(r.response) == CheckPassword(store[resolved.value], req.password.value)))
  {
    var path := ChooseLoginPath(req);
    if path.MissingFields? then Stop(Err(400, LOGIN_MISSING))
    else
      match ResolveLogin(store, bound, issued, path, now)
      case Stop(e) => Stop(e)
      case Proceed(id) =>
        match CheckPassword(store[id], req.password.value)
        case Some(e) => Stop(e)
        case None => Proceed(id)
  }

  /** With a bootstrap token present, the email is ignored: no failure of the token path falls through to the email path. */
  lemma {:induction false} BootstrapIgnoresEmail(store: Store, bound: nat, issued: set<Token>, req: LoginRequest, email: Option<string>, now: int)
    requires req.postRegistrationToken.Some?
    ensures LoginDecision(store, bound, issued, req, now) == LoginDecision(store, bound, issued, req.(email := email), now)
  {
    assert ChooseLoginPath(req) == ChooseLoginPath(req.(email := email));
  }

  /** The bootstrap path opens a session only for a verified, unexpired post-registration token, and for that token's subject. */
  lemma BootstrapAcceptsOnlyPostRegistration(store: Store, bound: nat, issued: set<Token>, t: Token, email: Option<string>, password: string, now: int)
    requires password != ""
    ensures var r := LoginDecision(store, bound, issued, LoginRequest(email, Some(password), Some(t)), now);
      (r.Proceed? ==> t in issued && now < t.expiresAt && t.purpose == Some(POST_REGISTRATION) && r.value == t.subject) &&
      (!BootstrapAccepted(issued, t, now) ==> r == Stop(Err(401, BOOTSTRAP_REJECTED))) &&
      (BootstrapAccepted(issued, t, now) && t.subject !in store ==> r == Stop(Err(401, BOOTSTRAP_UNKNOWN)))
  {
  }

  /**
   * The bootstrap path opens a session iff the token is an accepted
   * post-registration token whose account exists and the password matches that
   * account's current first password identifier, also after a reset of it.
   */
  lemma BootstrapLoginSucceedsIff(store: Store, bound: nat, issued: set<Token>, t: Token, email: Option<string>, password: string, now: int)
    requires password != ""
    ensures LoginDecision(store, bound, issued, LoginRequest(email, Some(password), Some(t)), now).Proceed? <==>
              BootstrapAccepted(issued, t, now) && t.subject in store && PasswordIs(store[t.subject], password)
  {
  }

  /** Session and reset tokens, which carry no purpose, never pass the bootstrap path, however fresh. */
  lemma PurposelessTokenRejectedByBootstrap(store: Store, bound: nat, issued: set<Token>, t: Token, email: Option<string>, password: string, now: int)
    requires t.purpose.None? && password != ""
    ensures LoginDecision(store, bound, issued, LoginRequest(email, Some(password), Some(t)), now) == Stop(Err(401, BOOTSTRAP_REJECTED))
  {
  }

  /** An unknown email and a wrong password produce the very same response. */
  lemma UnknownEmailLooksLikeWrongPassword(store: Store, bound: nat, issued: set<Token>, email: string, stranger: string, password: string, now: int)
    requires email != "" && stranger != "" && password != ""
    requires forall id: Id :: id < bound ==> !Matches(store, id, EMAIL_SYSTEM, stranger)
    requires var hits := Search(store, EMAIL_SYSTEM, email, bound);
      hits != [] && store[hits[0]].identifier.Some? &&
      var digest := FindValue(store[hits[0]].identifier.value, PASSWORD_SYSTEM);
      digest.Some? && !Compare(password, digest.value)
    ensures LoginDecision(store, bound, issued, LoginRequest(Some(stranger), Some(password), None), now)
         == LoginDecision(store, bound, issued, LoginRequest(Some(email), Some(password), None), now)
         == Stop(Err(401, BAD_CREDENTIALS))
  {
  }

  /** An account without a password identifier gets a 401 that differs from the one for bad credentials. */
  lemma MisconfiguredIsDistinct(store: Store, bound: nat, issued: set<Token>, email: string, password: string, now: int)
    requires email != "" && password != ""
    requires var hits := Search(store, EMAIL_SYSTEM, email, bound);
      hits != [] && store[hits[0]].identifier.Some? && Count(store[hits[0]].identifier.value, PASSWORD_SYSTEM) == 0
    ensures var r := LoginDecision(store, bound, issued, LoginRequest(Some(email), Some(password), None), now);
      r == Stop(Err(401, MISCONFIGURED)) && r != Stop(Err(401, BAD_CREDENTIALS))
  {
  }

  /** `id` is the first account the email search returns. */
  ghost predicate FirstWithEmail(store: Store, id: Id, email: string) {
    Matches(store, id, EMAIL_SYSTEM, email) &&
    forall other :: Matches(store, other, EMAIL_SYSTEM, email) ==> id <= other
  }

  /** The account's login lookup yields the hash of `password`. */
  predicate PasswordIs(p: Person, password: string) {
    p.identifier.Some? && FindValue(p.identifier.value, PASSWORD_SYSTEM) == Some(Hash(password))
  }

  /** Login by email succeeds iff the password matches the first password identifier of the first account with that email. */
  lemma EmailLoginSucceedsIff(store: Store, bound: nat, issued: set<Token>, email: string, password: string, now: int)
    requires Bounded(store, bound)
    requires email != "" && password != ""
    ensures LoginDecision(store, bound, issued, LoginRequest(Some(email), Some(password), None), now).Proceed? <==>
              exists id :: FirstWithEmail(store, id, email) && PasswordIs(store[id], password)
    ensures var r := LoginDecision(store, bound, issued, LoginRequest(Some(email), Some(password), None), now);
              r.Proceed? ==> FirstWithEmail(store, r.value, email)
  {
    SearchFirst(store, EMAIL_SYSTEM, email, bound);
    var hits := Search(store, EMAIL_SYSTEM, email, bound);
    if hits != [] {
      var first := hits[0];
      assert FirstWithEmail(store, first, email);
      forall id | FirstWithEmail(store, id, email) ensures id == first {
        assert first <= id && id <= first;
      }
      assert LoginDecision(store, bound, issued, LoginRequest(Some(email), Some(password), None), now).Proceed? <==>
             CheckPassword(store[first], password).None?;
    }
  }

  /**
   * Right after registration, the returned token logs the new account in with
   * its password, any number of times, exactly while the clock is within five
   * minutes of the registration; a wrong password is refused.
   */
  lemma RegisterThenBootstrap(store: Store, issued: set<Token>, id: Id, name: string, email: string, password: string,
                              attempt: string, now: int, later: int)
    requires id !in store && attempt != ""
    ensures var after := store[id := NewPerson(name, email, password)];
      var t := Sign(id, Some(POST_REGISTRATION), POST_REGISTRATION_TTL, now);
      var r := LoginDecision(after, id + 1, issued + {t}, LoginRequest(None, Some(attempt), Some(t)), later);
      (r == Proceed(id) <==> later < now + POST_REGISTRATION_TTL && attempt == password) &&
      (later >= now + POST_REGISTRATION_TTL ==> r == Stop(Err(401, BOOTSTRAP_REJECTED)))
  {
    NewPersonCredentials(name, email, password);
    CompareExactly(password, attempt);
  }

  // ---- Forgot / request-reset

  /** The two entry points of the reset-link flow. */
  datatype ResetRoute = Forgot | RequestReset

  /** The page the emailed link opens. */
  const SITE := "https://fhirbaser5.duckdns.org/"

  function LinkPage(route: ResetRoute): (page: string)
    ensures |page| > |SITE| && page[..|SITE|] == SITE
  {
    match route
    case Forgot => SITE + "forgot.html"
    case RequestReset => SITE + "reset.html"
  }

  /** The `error` string when the mailer fails. */
  function SendFailure(route: ResetRoute): (message: string)
    ensures message != LINK_SENT
  {
    match route
    case Forgot => FORGOT_SEND_FAILED
    case RequestReset => REQUEST_RESET_SEND_FAILED
  }

  /** The two entry points open different pages and fail with different messages; nothing else differs. */
  lemma RoutesDiffer()
    ensures LinkPage(Forgot) != LinkPage(RequestReset)
    ensures SendFailure(Forgot) != SendFailure(RequestReset)
  {
    assert LinkPage(Forgot)[|SITE|] == 'f' && LinkPage(RequestReset)[|SITE|] == 'r';
  }

  /** The checks shared by both entry points: a missing email is 400, an unknown one 404, else the first match's id. */
  function ResetLinkCheck(store: Store, bound: nat, req: EmailRequest): (r: Outcome<Id>)
    ensures r == Stop(Err(400, EMAIL_MISSING)) <==> !Present(req.email)
    ensures r == Stop(Err(404, NO_SUCH_ACCOUNT)) <==>
              Present(req.email) && forall id: Id :: id < bound ==> !Matches(store, id, EMAIL_SYSTEM, req.email.value)
    ensures r.Stop? ==> r == Stop(Err(400, EMAIL_MISSING)) || r == Stop(Err(404, NO_SUCH_ACCOUNT))
    ensures r.Proceed? ==>
              Present(req.email) && Matches(store, r.value, EMAIL_SYSTEM, req.email.value) &&
              forall id: Id :: id < bound && Matches(store, id, EMAIL_SYSTEM, req.email.value) ==> r.value <= id
  {
    if !Present(req.email) then Stop(Err(400, EMAIL_MISSING))
    else
      var hits := Search(store, EMAIL_SYSTEM, req.email.value, bound);
      if |hits| == 0 then Stop(Err(404, NO_SUCH_ACCOUNT))
      else
        assert forall k :: 0 < k < |hits| ==> hits[0] < hits[k];
        Proceed(hits[0])
  }

  /** Unlike login, the reset-link flow tells an unknown email (404) apart from a missing one (400). */
  lemma ResetLinkRevealsUnknownEmail(store: Store, bound: nat, email: string)
    requires Bounded(store, bound) && email != ""
    ensures ResetLinkCheck(store, bound, EmailRequest(Some(email))) == Stop(Err(404, NO_SUCH_ACCOUNT)) <==>
              forall id :: id in store ==> !HasIdentifier(store[id], EMAIL_SYSTEM, email)
  {
    SearchFirst(store, EMAIL_SYSTEM, email, bound);
  }

  // ---- Reset-password

  /** Reset's checks: 400 for a missing field; any token that verifies names the account, whatever its purpose; 500 otherwise. */
  function ResetTarget(store: Store, issued: set<Token>, req: ResetRequest, now: int): (r: Outcome<Id>)
    ensures r == Stop(Err(400, RESET_MISSING)) <==> req.token.None? || !Present(req.password)
    ensures r.Proceed? <==>
              req.token.Some? && Present(req.password) &&
              req.token.value in issued && now < req.token.value.expiresAt && req.token.value.subject in store
    ensures r.Proceed? ==> r.value == req.token.value.subject
    ensures r.Stop? ==> r == Stop(Err(400, RESET_MISSING)) || r == Stop(Err(500, RESET_FAILED))
  {
    if req.token.None? || !Present(req.password) then Stop(Err(400, RESET_MISSING))
    else
      match Verify(issued, req.token.value, now)
      case None => Stop(Err(500, RESET_FAILED))
      case Some(payload) =>
        if payload.subject !in store then Stop(Err(500, RESET_FAILED)) else Proceed(payload.subject)
  }

  /** Reset-password honours a post-registration, session or reset token alike, and reports a bad or expired token as 500, never 401. */
  lemma ResetIgnoresPurpose(store: Store, issued: set<Token>, t: Token, purpose: Option<string>, password: string, now: int)
    requires password != "" && t.subject in store
    requires t in issued && t.(purpose := purpose) in issued
    ensures ResetTarget(store, issued, ResetRequest(Some(t), Some(password)), now)
         == ResetTarget(store, issued, ResetRequest(Some(t.(purpose := purpose)), Some(password)), now)
    ensures now >= t.expiresAt ==> ResetTarget(store, issued, ResetRequest(Some(t), Some(password)), now) == Stop(Err(500, RESET_FAILED))
  {
  }

  /**
   * The end-to-end effect of a reset to `newPassword` on the account that the
   * email resolves to: afterwards login by email with the old password fails
   * with the bad-credentials 401 and with the new one succeeds.
   */
  lemma ResetThenLogin(store: Store, bound: nat, issued: set<Token>, email: string, oldPassword: string, newPassword: string, now: int)
    requires email != "" && oldPassword != "" && newPassword != "" && oldPassword != newPassword
    requires Search(store, EMAIL_SYSTEM, email, bound) != []
    ensures var id := Search(store, EMAIL_SYSTEM, email, bound)[0];
      var after := store[id := Rotated(store[id], Hash(newPassword))];
      LoginDecision(after, bound, issued, LoginRequest(Some(email), Some(oldPassword), None), now) == Stop(Err(401, BAD_CREDENTIALS)) &&
      LoginDecision(after, bound, issued, LoginRequest(Some(email), Some(newPassword), None), now) == Proceed(id)
  {
    var id := Search(store, EMAIL_SYSTEM, email, bound)[0];
    var p := Rotated(store[id], Hash(newPassword));
    RotatedSearchable(store[id], Hash(newPassword), EMAIL_SYSTEM, email);
    SearchAfterReplace(store, id, p, EMAIL_SYSTEM, email, bound);
    RotateSinglePassword(store[id].identifier, Hash(newPassword));
    CompareExactly(newPassword, oldPassword);
  }
}

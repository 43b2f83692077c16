/**
 * The authentication flow controller: one object holding the account store,
 * the set of tokens signed with the gateway's secret and the mail handed to
 * the mailer, with one method per request handler. Each handler runs as one
 * atomic step; the store's and the mailer's replies (accepted or not) are
 * parameters.
 */
module Gateway {
  import opened Wrappers
  import opened Records
  import opened Tokens
  import opened Credentials
  import opened Flows

  class AuthGateway {
    /** The Person resources on the FHIR server. */
    var store: Store
    /** The id the store assigns to the next resource it creates. */
    var nextId: Id
    /** Every token signed so far: exactly the tokens whose signature verifies. */
    var issued: set<Token>
    /** The reset mails the mailer has delivered, oldest first. */
    var outbox: seq<Mail>

    ghost predicate Valid()
      reads this
    {
      Bounded(store, nextId)
    }

    constructor ()
      ensures Valid()
      ensures store == map[] && nextId == 0 && issued == {} && outbox == []
    {
      store, nextId, issued, outbox := map[], 0, {}, [];
    }

    /** The store's create: the resource is stored under a fresh id. */
    method Create(p: Person) returns (id: Id)
      requires Valid()
      modifies this
      ensures Valid()
      ensures id == old(nextId) && id !in old(store)
      ensures store == old(store)[id := p] && nextId == id + 1
      ensures issued == old(issued) && outbox == old(outbox)
    {
      id := nextId;
      store := store[id := p];
      nextId := nextId + 1;
    }

    /** `jwt.sign`: the token is signed with the secret at time `now`. */
    method Issue(subject: Id, purpose: Option<string>, ttl: nat, now: int) returns (t: Token)
      modifies this
      ensures t == Sign(subject, purpose, ttl, now)
      ensures issued == old(issued) + {t}
      ensures store == old(store) && nextId == old(nextId) && outbox == old(outbox)
    {
      t := Sign(subject, purpose, ttl, now);
      issued := issued + {t};
    }

    /** `POST /api/register`. `accepted` is whether the store answers the create with success. */
    method Register(req: RegisterRequest, now: int, accepted: bool) returns (r: Response)
      requires Valid()
      modifies this
      ensures Valid() && outbox == old(outbox)
      ensures match RegisterCheck(old(store), old(nextId), req)
        case Stop(e) =>
          r == e && store == old(store) && nextId == old(nextId) && issued == old(issued)
        case Proceed(_) =>
          if !accepted then
            r == Err(500, REGISTER_UPSTREAM) && store == old(store) && nextId == old(nextId) && issued == old(issued)
          else
            var id := old(nextId);
            var t := Sign(id, Some(POST_REGISTRATION), POST_REGISTRATION_TTL, now);
            id !in old(store) &&
            store == old(store)[id := NewPerson(req.name.value, req.email.value, req.password.value)] &&
            nextId == id + 1 && issued == old(issued) + {t} &&
            r == Ok(Registered(REGISTERED, id, t))
    {
      if !Present(req.name) || !Present(req.email) || !Present(req.password) {
        return Err(400, REGISTER_MISSING);
      }
      var hits := Search(store, EMAIL_SYSTEM, req.email.value, nextId);
      if |hits| > 0 {
        return Err(409, EMAIL_TAKEN);
      }
      var person := NewPerson(req.name.value, req.email.value, req.password.value);
      if !accepted {
        return Err(500, REGISTER_UPSTREAM);
      }
      var id := Create(person);
      var t := Issue(id, Some(POST_REGISTRATION), POST_REGISTRATION_TTL, now);
      r := Ok(Registered(REGISTERED, id, t));
    }

    /** `POST /api/login`: on success a session token, also set as a one-hour cookie. */
    method Login(req: LoginRequest, now: int) returns (r: Response)
      requires Valid()
      modifies this
      ensures Valid() && store == old(store) && nextId == old(nextId) && outbox == old(outbox)
      ensures match LoginDecision(old(store), old(nextId), old(issued), req, now)
        case Stop(e) => r == e && issued == old(issued)
        case Proceed(id) =>
          var t := Sign(id, None, SESSION_TTL, now);
          issued == old(issued) + {t} &&
          r == Ok(SessionStarted(LOGGED_IN, Cookie(SESSION_COOKIE, t, true, SESSION_COOKIE_MAX_AGE_MS)))
      ensures r.Ok? ==>
        r.payload.SessionStarted? &&
        r.payload.cookie.maxAgeMs == 1000 * (r.payload.cookie.token.expiresAt - r.payload.cookie.token.issuedAt)
    {
      if !Present(req.password) || (!Present(req.email) && req.postRegistrationToken.None?) {
        return Err(400, LOGIN_MISSING);
      }
      var person: Option<Person> := None;
      var pid: Id := 0;
      if req.postRegistrationToken.Some? {
        var payload := Verify(issued, req.postRegistrationToken.value, now);
        if payload.None? || payload.value.purpose != Some(POST_REGISTRATION) {
          return Err(401, BOOTSTRAP_REJECTED);
        }
        pid := payload.value.subject;
        if pid !in store {
          return Err(401, BOOTSTRAP_UNKNOWN);
        }
        person := Some(store[pid]);
      } else {
        var hits := Search(store, EMAIL_SYSTEM, req.email.value, nextId);
        if |hits| == 0 {
          return Err(401, BAD_CREDENTIALS);
        }
        pid := hits[0];
        person := Some(store[pid]);
      }
      // Both paths have set `person` here, so the source's `!person` guard never fires.
      if person.value.identifier.None? {
        return Err(500, LOGIN_ERROR);
      }
      var hashEntry := FindValue(person.value.identifier.value, PASSWORD_SYSTEM);
      if hashEntry.None? {
        return Err(401, MISCONFIGURED);
      }
      if !Compare(req.password.value, hashEntry.value) {
        return Err(401, BAD_CREDENTIALS);
      }
      var t := Issue(pid, None, SESSION_TTL, now);
      r := Ok(SessionStarted(LOGGED_IN, Cookie(SESSION_COOKIE, t, true, SESSION_COOKIE_MAX_AGE_MS)));
    }

    /** The mailer: `delivered` is whether the send succeeds; only a delivered mail reaches the outbox. */
    method SendResetEmail(to: string, link: Link, delivered: bool) returns (ok: bool)
      modifies this
      ensures ok == delivered
      ensures outbox == if delivered then old(outbox) + [Mail(to, link)] else old(outbox)
      ensures store == old(store) && nextId == old(nextId) && issued == old(issued)
    {
      if delivered {
        outbox := outbox + [Mail(to, link)];
      }
      ok := delivered;
    }

    /** `POST /api/forgot` and `POST /api/request-reset`: a 15-minute token for the first match, mailed as a link. */
    method RequestResetLink(route: ResetRoute, req: EmailRequest, now: int, delivered: bool) returns (r: Response)
      requires Valid()
      modifies this
      ensures Valid() && store == old(store) && nextId == old(nextId)
      ensures match ResetLinkCheck(old(store), old(nextId), req)
        case Stop(e) => r == e && issued == old(issued) && outbox == old(outbox)
        case Proceed(id) =>
          var t := Sign(id, None, RESET_TTL, now);
          issued == old(issued) + {t} &&
          if delivered then
            outbox == old(outbox) + [Mail(req.email.value, Link(LinkPage(route), t))] && r == Ok(Notice(LINK_SENT))
          else
            outbox == old(outbox) && r == Err(500, SendFailure(route))
    {
      if !Present(req.email) {
        return Err(400, EMAIL_MISSING);
      }
      var hits := Search(store, EMAIL_SYSTEM, req.email.value, nextId);
      if |hits| == 0 {
        return Err(404, NO_SUCH_ACCOUNT);
      }
      var pid := hits[0];
      var tok := Issue(pid, None, RESET_TTL, now);
      var link := Link(LinkPage(route), tok);
      var sent := SendResetEmail(req.email.value, link, delivered);
      if !sent {
        return Err(500, SendFailure(route));
      }
      r := Ok(Notice(LINK_SENT));
    }

    /**
     * `POST /api/reset-password`: the fetched resource loses its password
     * identifiers, gains the new hash at the end and replaces the stored one.
     * `accepted` is whether the store answers the replace with success.
     */
    method ResetPassword(req: ResetRequest, now: int, accepted: bool) returns (r: Response)
      requires Valid()
      modifies this
      ensures Valid() && nextId == old(nextId) && issued == old(issued) && outbox == old(outbox)
      ensures match ResetTarget(old(store), old(issued), req, now)
        case Stop(e) => r == e && store == old(store)
        case Proceed(id) =>
          if accepted then
            store == old(store)[id := Rotated(old(store)[id], Hash(req.password.value))] && r == Ok(Notice(PASSWORD_UPDATED))
          else
            store == old(store) && r == Err(500, RESET_FAILED)
    {
      if req.token.None? || !Present(req.password) {
        return Err(400, RESET_MISSING);
      }
      var payload := Verify(issued, req.token.value, now);
      if payload.None? {
        return Err(500, RESET_FAILED);
      }
      var pid := payload.value.subject;
      if pid !in store {
        return Err(500, RESET_FAILED);
      }
      var person := store[pid];
      person := person.(identifier := Some(Without(person.identifier.GetOr([]), PASSWORD_SYSTEM)));
      person := person.(identifier := Some(person.identifier.value + [Identifier(PASSWORD_SYSTEM, Hash(req.password.value))]));
      if !accepted {
        return Err(500, RESET_FAILED);
      }
      store := store[pid := person];
      r := Ok(Notice(PASSWORD_UPDATED));
    }
  }
}

/** The `/register` and `/login` handlers as transitions over the user
    collection.

    Token signing is an oracle `sign` (None: the signing callback reported an
    error). A database call that throws is a `StoreFault`, chosen by the
    environment; every thrown error lands in the handler's catch-all 500. */
module Accounts {
  import opened Wrappers
  import opened Users
  import opened Http

  /** Which database call, if any, throws during the request. */
  datatype StoreFault = Healthy | LookupFails | SaveFails

  /** The payloads the server signs: `{ sanitizedResult }` at registration,
      `{ user }` at login. */
  datatype Claims = SignUpClaims(sanitizedResult: Profile) | LoginClaims(user: Profile)

  /** The collection after a request, and the reply to it. */
  datatype Step = Step(users: seq<User>, response: Response)

  const AlreadySignedUp := "User already signed up"
  const TokenError := "Error creating token"
  const ServerError := "Server error"
  const MissingFields := "Bad Request: Missing email or password"
  const UnknownUser := "Unauthorized: User not found or invalid credentials"
  const SigningWentWrong := "Something is wrong"

  /** `POST /register`: refuse a known email; otherwise store the body as it
      is and reply with the stored record minus its password and a token.
      The record is stored before signing, so a signing error leaves it in
      place. */
  function Register(users: seq<User>, body: User, fault: StoreFault,
                    sign: Claims -> Option<string>): (s: Step)
    ensures s.users == users || s.users == users + [body]
    ensures s.users == users + [body] <==>
      fault == Healthy && !HasEmail(users, body.email)
    ensures fault != LookupFails && HasEmail(users, body.email) ==>
      s.response == Response(400, Message(AlreadySignedUp))
    ensures fault == LookupFails ==> s.response == Response(500, Message(ServerError))
    ensures s.response.status == 200 <==>
      fault == Healthy && !HasEmail(users, body.email) &&
      sign(SignUpClaims(Sanitize(body))).Some?
    ensures s.response.status == 200 ==>
      s.response.body == SignedUp(Sanitize(body), sign(SignUpClaims(Sanitize(body))).value)
    ensures fault == Healthy && !HasEmail(users, body.email) &&
            sign(SignUpClaims(Sanitize(body))).None? ==>
      s == Step(users + [body], Response(500, Message(TokenError)))
    ensures fault == SaveFails && !HasEmail(users, body.email) ==>
      s == Step(users, Response(500, Message(ServerError)))
  {
    if fault == LookupFails then
      Step(users, Response(500, Message(ServerError)))
    else if FirstWithEmail(users, body.email).Some? then
      Step(users, Response(400, Message(AlreadySignedUp)))
    else if fault == SaveFails then
      Step(users, Response(500, Message(ServerError)))
    else
      assert fault == Healthy;
      var stored := users + [body];
      var sanitizedResult := Sanitize(body);
      match sign(SignUpClaims(sanitizedResult))
      case None => Step(stored, Response(500, Message(TokenError)))
      case Some(token) => Step(stored, Response(200, SignedUp(sanitizedResult, token)))
  }

  /** `POST /login`: demand a truthy email and password, then look the email
      up and sign the found record's profile. The password is only checked
      for presence; it is never compared with the stored one. */
  function Login(users: seq<User>, email: Option<string>, password: Option<string>,
                 fault: StoreFault, sign: Claims -> Option<string>): (s: Step)
    ensures s.users == users
    ensures !(Truthy(email) && Truthy(password)) ==>
      s.response == Response(400, Message(MissingFields))
    ensures Truthy(email) && Truthy(password) && fault == LookupFails ==>
      s.response == Response(500, Message(ServerError))
    ensures Truthy(email) && Truthy(password) && fault != LookupFails &&
            !HasEmail(users, email.value) ==>
      s.response == Response(401, Message(UnknownUser))
    ensures s.response.status == 200 <==>
      Truthy(email) && Truthy(password) && fault != LookupFails &&
      HasEmail(users, email.value) &&
      sign(LoginClaims(Lookup(users, email.value).value)).Some?
    ensures s.response.status == 200 ==>
      s.response.body.SignedIn? &&
      Some(s.response.body.user) == Lookup(users, email.value) &&
      sign(LoginClaims(s.response.body.user)) == Some(s.response.body.auth)
    ensures s.response.status == 500 ==> fault == LookupFails
    ensures Truthy(email) && Truthy(password) && fault != LookupFails &&
            HasEmail(users, email.value) &&
            sign(LoginClaims(Lookup(users, email.value).value)).None? ==>
      s.response == Response(401, Message(SigningWentWrong))
  {
    if !(Truthy(email) && Truthy(password)) then
      Step(users, Response(400, Message(MissingFields)))
    else if fault == LookupFails then
      Step(users, Response(500, Message(ServerError)))
    else
      match Lookup(users, email.value)
      case None => Step(users, Response(401, Message(UnknownUser)))
      case Some(user) =>
        match sign(LoginClaims(user))
        case None => Step(users, Response(401, Message(SigningWentWrong)))
        case Some(token) => Step(users, Response(200, SignedIn(user, token)))
  }

  /** Registration keeps emails unique when it is the only writer: the
      existence check and the insert are not interleaved with another
      request here. */
  lemma RegisterPreservesUniqueEmails(users: seq<User>, body: User, fault: StoreFault,
                                      sign: Claims -> Option<string>)
    requires UniqueEmails(users)
    ensures UniqueEmails(Register(users, body, fault, sign).users)
  {
  }

  /** Once a registration has gone through the store without a fault, a
      second registration with the same email is refused and stores no
      second record, whatever its name and password. */
  lemma RegisterTwiceRefused(users: seq<User>, first: User, second: User,
                             fault: StoreFault, sign: Claims -> Option<string>,
                             fault2: StoreFault, sign2: Claims -> Option<string>)
    requires second.email == first.email
    requires fault == Healthy && fault2 != LookupFails
    ensures var s1 := Register(users, first, fault, sign);
            var s2 := Register(s1.users, second, fault2, sign2);
            s2.users == s1.users && s2.response == Response(400, Message(AlreadySignedUp))
  {
    var s1 := Register(users, first, fault, sign);
    if s1.users == users + [first] {
      assert s1.users[|users|].email == second.email;
    } else {
      assert HasEmail(users, first.email);
    }
  }

  /** After a registration stores a record, logging in with its email and ANY
      non-empty password signs in as that record's profile. */
  lemma {:induction false} RegisterThenLogin(users: seq<User>, body: User, password: string,
                                             sign: Claims -> Option<string>)
    requires !HasEmail(users, body.email)
    requires body.email != "" && password != ""
    requires sign(LoginClaims(Sanitize(body))).Some?
    ensures var s1 := Register(users, body, Healthy, sign);
            var s2 := Login(s1.users, Some(body.email), Some(password), Healthy, sign);
            s2.response == Response(200, SignedIn(Sanitize(body), sign(LoginClaims(Sanitize(body))).value))
  {
    LookupAfterAppend(users, body, body.email);
  }

  /** Login's reply does not depend on which non-empty password is sent. */
  lemma LoginIgnoresPassword(users: seq<User>, email: Option<string>, p1: string, p2: string,
                             fault: StoreFault, sign: Claims -> Option<string>)
    requires p1 != "" && p2 != ""
    ensures Login(users, email, Some(p1), fault, sign) == Login(users, email, Some(p2), fault, sign)
  {
  }

  /** With a falsy email or password, login answers 400 before touching the
      store or the signer: the collection, the fault and the oracle are
      irrelevant. */
  lemma LoginMissingFieldSkipsLookup(users1: seq<User>, users2: seq<User>,
                                     email: Option<string>, password: Option<string>,
                                     fault1: StoreFault, fault2: StoreFault,
                                     sign1: Claims -> Option<string>, sign2: Claims -> Option<string>)
    requires !Truthy(email) || !Truthy(password)
    ensures Login(users1, email, password, fault1, sign1).response ==
            Login(users2, email, password, fault2, sign2).response
  {
  }
}

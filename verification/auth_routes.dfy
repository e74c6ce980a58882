/**
 * The two account endpoints that need no session: requesting a password
 * reset, which replaces the user's reset tokens by one new token valid
 * for an hour and answers the same whether or not the address is known,
 * and registering, which rejects an address already in use and returns
 * the new account without its password hash.
 */
module AuthRoutes {
  import opened Wrappers
  import opened Text
  import opened Collections
  import opened Store

  /** The JSON body of a reset request; `None` is a missing field. */
  datatype ForgotBody = ForgotBody(email: Option<string>, language: Option<string>)

  const EmailRequiredMessage: string := "Email is required"

  /** How long a reset token stays valid, in milliseconds: one hour. */
  const ResetTokenLifetime: int := 60 * 60 * 1000

  /** The name a reset mail greets when the account has neither a name nor an address. */
  const FallbackUserName: string := "User"

  /** The reset mail handed to the mail service; whether it is delivered does not change the answer. */
  datatype ResetMail = ResetMail(to: string, userName: string, token: string, expiresAt: int, language: string)

  /** What a reset request answers, the database afterwards, and the mail it asks to send. */
  datatype ForgotReply = ForgotReply(result: Result<(), HttpError>, db: Db, mail: Option<ResetMail>)

  /** The account whose address is exactly `email`; the address column is unique. */
  function UserByEmail(db: Db, email: string): (r: Option<User>)
    ensures r.Some? ==> r.value in db.users && r.value.email == email
    ensures r.None? ==> forall k :: 0 <= k < |db.users| ==> db.users[k].email != email
  {
    Find(db.users, (u: User) => u.email == email)
  }

  /** The reset tokens issued to `userId`, in table order. */
  function TokensOf(db: Db, userId: Id): (r: seq<ResetToken>)
    ensures forall k :: 0 <= k < |r| ==> r[k] in db.tokens && r[k].userId == userId
    ensures forall t :: t in db.tokens && t.userId == userId ==> t in r
  {
    Filter(db.tokens, (t: ResetToken) => t.userId == userId)
  }

  /** The name a reset mail greets: the account's name, else its address, else a fallback. */
  function Greeting(u: User): (r: string)
    ensures r != ""
    ensures Truthy(u.name) ==> r == u.name.value
    ensures !Truthy(u.name) && u.email != "" ==> r == u.email
  {
    if Truthy(u.name) then u.name.value else if u.email != "" then u.email else FallbackUserName
  }

  /** The token table with every token of `userId` replaced by `issued`. */
  function ReplaceTokens(tokens: seq<ResetToken>, userId: Id, issued: ResetToken): seq<ResetToken> {
    Filter(tokens, (t: ResetToken) => t.userId != userId) + [issued]
  }

  /**
   * A reset request. The address is looked up lowercased; `now` is the
   * clock and `token` the random token. The answer depends on the body
   * alone, so a caller cannot tell a known address from an unknown one.
   */
  function ForgotPassword(db: Db, body: ForgotBody, now: int, token: string): (r: ForgotReply)
    ensures r.result == if Truthy(body.email) then Ok(()) else Err(BadRequest(EmailRequiredMessage))
    ensures r.result.Err? ==> r.db == db && r.mail.None?
    ensures r.db == db.(tokens := r.db.tokens)
    ensures r.mail.Some? <==> Truthy(body.email) && UserByEmail(db, Lower(body.email.value)).Some?
    ensures r.mail.None? ==> r.db == db
    ensures r.mail.Some? ==>
      var u := UserByEmail(db, Lower(body.email.value)).value;
      && r.mail.value == ResetMail(u.email, Greeting(u), token, now + ResetTokenLifetime, body.language.GetOr("en"))
      && (forall t :: t in r.db.tokens && t.userId != u.id ==> t in db.tokens)
      && (forall t :: t in db.tokens && t.userId != u.id ==> t in r.db.tokens)
  {
    if !Truthy(body.email) then ForgotReply(Err(BadRequest(EmailRequiredMessage)), db, None)
    else
      match UserByEmail(db, Lower(body.email.value))
      case None => ForgotReply(Ok(()), db, None)
      case Some(u) =>
        var expiresAt := now + ResetTokenLifetime;
        ForgotReply(
          Ok(()),
          db.(tokens := ReplaceTokens(db.tokens, u.id, ResetToken(token, u.id, expiresAt))),
          Some(ResetMail(u.email, Greeting(u), token, expiresAt, body.language.GetOr("en"))))
  }

  /**
   * After a reset request for a known address the account holds exactly
   * one token: the new one, expiring an hour from now.
   */
  lemma ResetLeavesOneToken(db: Db, body: ForgotBody, now: int, token: string)
    requires Truthy(body.email) && UserByEmail(db, Lower(body.email.value)).Some?
    ensures var u := UserByEmail(db, Lower(body.email.value)).value;
      TokensOf(ForgotPassword(db, body, now, token).db, u.id) == [ResetToken(token, u.id, now + ResetTokenLifetime)]
  {
    var u := UserByEmail(db, Lower(body.email.value)).value;
    var issued := ResetToken(token, u.id, now + ResetTokenLifetime);
    var kept := Filter(db.tokens, (t: ResetToken) => t.userId != u.id);
    var mine := (t: ResetToken) => t.userId == u.id;
    FilterConcat(kept, [issued], mine);
    FilterNone(kept, mine);
  }

  /** The JSON body of a registration; `None` is a missing field. */
  datatype RegisterBody = RegisterBody(email: Option<string>, password: Option<string>, name: Option<string>)

  const CredentialsRequiredMessage: string := "Email and password are required"

  /** The fields a registration answers with: everything but the password hash. */
  datatype PublicUser = PublicUser(id: Id, email: string, name: Option<string>, createdAt: int)

  /** What a registration answers and the database afterwards. */
  datatype RegisterReply = RegisterReply(result: Result<PublicUser, HttpError>, db: Db)

  /** The account as a registration returns it. */
  function Public(u: User): (p: PublicUser)
    ensures p.id == u.id && p.email == u.email && p.name == u.name && p.createdAt == u.createdAt
  {
    PublicUser(u.id, u.email, u.name, u.createdAt)
  }

  /**
   * Creating the account stored under address `email`, unless an account
   * already has exactly that address. `id` is the new row id, `hash` the
   * password hashing and `now` the clock.
   */
  function CreateAccount(db: Db, email: string, body: RegisterBody, id: Id, hash: string -> string, now: int): (r: RegisterReply)
    requires Truthy(body.password)
    ensures UserByEmail(db, email).Some? ==> r == RegisterReply(Err(Conflict), db)
    ensures UserByEmail(db, email).None? ==>
      var u := User(id, email, body.name, hash(body.password.value), now);
      r == RegisterReply(Ok(Public(u)), db.(users := db.users + [u]))
  {
    if UserByEmail(db, email).Some? then RegisterReply(Err(Conflict), db)
    else
      var u := User(id, email, body.name, hash(body.password.value), now);
      RegisterReply(Ok(Public(u)), db.(users := db.users + [u]))
  }

  /** Registration as written: the address is stored and compared exactly as typed. */
  function RegisterAsWritten(db: Db, body: RegisterBody, id: Id, hash: string -> string, now: int): (r: RegisterReply)
    ensures !Truthy(body.email) || !Truthy(body.password) <==> r.result == Err(BadRequest(CredentialsRequiredMessage))
    ensures r.result.Err? ==> r.db == db
    ensures Truthy(body.email) && Truthy(body.password) ==>
      (r.result == Err(Conflict) <==> exists k :: 0 <= k < |db.users| && db.users[k].email == body.email.value)
    ensures r.result.Ok? ==>
      && r.db == db.(users := db.users + [User(id, body.email.value, body.name, hash(body.password.value), now)])
      && r.result.value == PublicUser(id, body.email.value, body.name, now)
  {
    if !Truthy(body.email) || !Truthy(body.password) then RegisterReply(Err(BadRequest(CredentialsRequiredMessage)), db)
    else CreateAccount(db, body.email.value, body, id, hash, now)
  }

  /** Registration with the address lowercased before it is compared and stored, as every other lookup expects. */
  function Register(db: Db, body: RegisterBody, id: Id, hash: string -> string, now: int): (r: RegisterReply)
    ensures !Truthy(body.email) || !Truthy(body.password) <==> r.result == Err(BadRequest(CredentialsRequiredMessage))
    ensures r.result.Err? ==> r.db == db
    ensures Truthy(body.email) && Truthy(body.password) ==>
      (r.result == Err(Conflict) <==> exists k :: 0 <= k < |db.users| && db.users[k].email == Lower(body.email.value))
    ensures r.result.Ok? ==>
      && r.db == db.(users := db.users + [User(id, Lower(body.email.value), body.name, hash(body.password.value), now)])
      && r.result.value == PublicUser(id, Lower(body.email.value), body.name, now)
  {
    if !Truthy(body.email) || !Truthy(body.password) then RegisterReply(Err(BadRequest(CredentialsRequiredMessage)), db)
    else CreateAccount(db, Lower(body.email.value), body, id, hash, now)
  }

  /** Appending an account whose address differs from `email` to a table without one leaves `email` unknown. */
  lemma StillUnknown(db: Db, u: User, email: string)
    requires UserByEmail(db, email).None? && u.email != email
    ensures UserByEmail(db.(users := db.users + [u]), email).None?
  {
    var users := db.users + [u];
    assert forall k :: 0 <= k < |users| ==> users[k].email != email by {
      forall k | 0 <= k < |users| ensures users[k].email != email {
        if k < |db.users| { assert users[k] == db.users[k]; }
      }
    }
  }

  /** Appending an account with address `email` to a table without one makes it the account found. */
  lemma NowKnown(db: Db, u: User, email: string)
    requires UserByEmail(db, email).None? && u.email == email
    ensures UserByEmail(db.(users := db.users + [u]), email) == Some(u)
  {
    var users := db.users + [u];
    var r := UserByEmail(db.(users := users), email);
    assert users[|db.users|] == u;
    assert forall x :: x in db.users ==> x.email != email;
    assert r.value in db.users + [u];
  }

  /**
   * As written, an account registered with an upper-case letter in its
   * address can never get a reset token: the reset request lowercases the
   * address it looks up, so it finds nobody, issues nothing and sends nothing.
   */
  lemma MixedCaseAccountCannotReset(db: Db, body: RegisterBody, id: Id, hash: string -> string, now: int, resetAt: int, token: string)
    requires Truthy(body.email) && Truthy(body.password) && Lower(body.email.value) != body.email.value
    requires UserByEmail(db, Lower(body.email.value)).None?
    ensures var reg := RegisterAsWritten(db, body, id, hash, now);
      var reset := ForgotPassword(reg.db, ForgotBody(body.email, None), resetAt, token);
      reg.result.Ok? ==> reset.mail.None? && reset.db == reg.db
  {
    var reg := RegisterAsWritten(db, body, id, hash, now);
    if reg.result.Ok? {
      StillUnknown(db, User(id, body.email.value, body.name, hash(body.password.value), now), Lower(body.email.value));
    }
  }

  /**
   * With the address lowercased at registration, a reset request typed in
   * any letter case finds the new account and leaves it exactly one token.
   */
  lemma RegisteredAccountCanReset(db: Db, body: RegisterBody, id: Id, hash: string -> string, now: int, typed: string, resetAt: int, token: string)
    requires Lower(typed) == Lower(body.email.GetOr("")) && typed != ""
    ensures var reg := Register(db, body, id, hash, now);
      var reset := ForgotPassword(reg.db, ForgotBody(Some(typed), None), resetAt, token);
      reg.result.Ok? ==>
        && reset.mail.Some? && reset.mail.value.token == token
        && TokensOf(reset.db, id) == [ResetToken(token, id, resetAt + ResetTokenLifetime)]
  {
    var reg := Register(db, body, id, hash, now);
    if reg.result.Ok? {
      var u := User(id, Lower(body.email.value), body.name, hash(body.password.value), now);
      NowKnown(db, u, Lower(body.email.value));
      ResetLeavesOneToken(reg.db, ForgotBody(Some(typed), None), resetAt, token);
    }
  }

  /** With the address lowercased, a second registration differing only in letter case is a conflict. */
  lemma CaseVariantConflicts(db: Db, body: RegisterBody, again: RegisterBody, id: Id, id2: Id, hash: string -> string, now: int, now2: int)
    requires Truthy(again.email) && Truthy(again.password)
    requires Lower(again.email.value) == Lower(body.email.GetOr(""))
    ensures Register(db, body, id, hash, now).result.Ok? ==>
      Register(Register(db, body, id, hash, now).db, again, id2, hash, now2).result == Err(Conflict)
  {
    var reg := Register(db, body, id, hash, now);
    if reg.result.Ok? {
      var u := User(id, Lower(body.email.value), body.name, hash(body.password.value), now);
      NowKnown(db, u, Lower(body.email.value));
    }
  }
}

/** The credential routes (app/routes/auth.py). Password hashing and checking
    (`set_password`, `check_password`) belong to the User model, which is not
    part of this model: they are the parameters `hash` and `check`. The mailer
    is the store's outbox. */
module AuthRoutes {
  import opened Common
  import opened Identity
  import opened Records
  import opened Tokens
  import opened Database

  datatype RegisterData = RegisterData(username: Option<string>, email: Option<string>, password: Option<string>)

  datatype LoginData = LoginData(email: Option<string>, password: Option<string>)

  /** `token` is `None` when the key is missing or holds the empty string. */
  datatype ResetData = ResetData(token: Option<ResetToken>, newPassword: Option<string>)

  const ResetSubject: string := "Password Reset Request"

  /** `register`: 400 unless username, email and password are all truthy,
      then 409 for an email already in use, else exactly one new user with
      role unset and the password's hash. */
  method Register(db: Store, data: RegisterData, hash: string -> string) returns (status: int)
    requires db.Valid()
    modifies db
    ensures db.Valid()
    ensures db.posts == old(db.posts) && db.categories == old(db.categories) && db.outbox == old(db.outbox)
    ensures db.nextPostId == old(db.nextPostId) && db.nextCategoryId == old(db.nextCategoryId)
    ensures status in {Created, BadRequest, Conflict}
    ensures status == BadRequest <==> !Given(data.username) || !Given(data.email) || !Given(data.password)
    ensures status == Conflict <==>
              && Given(data.username) && Given(data.email) && Given(data.password)
              && EmailTaken(old(db.users), data.email.value)
    ensures status != Created ==> db.users == old(db.users) && db.nextUserId == old(db.nextUserId)
    ensures status == Created ==>
              && old(db.nextUserId) !in old(db.users)
              && db.nextUserId == old(db.nextUserId) + 1
              && db.users == old(db.users)[old(db.nextUserId) :=
                   User(data.username.value, data.email.value, hash(data.password.value), None)]
  {
    if !Given(data.username) || !Given(data.email) || !Given(data.password) {
      return BadRequest;
    }
    var existing := db.UserIdByEmail(data.email);
    if existing.Some? {
      return Conflict;
    }
    var id := db.nextUserId;
    db.users := db.users[id := User(data.username.value, data.email.value, hash(data.password.value), None)];
    db.nextUserId := id + 1;
    status := Created;
  }

  /** `login`: a token exactly when a user has that email and the password
      checks against that user's hash; its subject is `str(user.id)`. 401
      otherwise. Nothing is written. */
  method Login(db: Store, data: LoginData, check: (string, Option<string>) -> bool)
    returns (status: int, token: Option<SessionToken>)
    requires db.Valid()
    ensures status == OK <==> token.Some?
    ensures status != OK ==> status == Unauthorized
    ensures token.Some? <==>
              exists id :: id in db.users && Some(db.users[id].email) == data.email
                           && check(db.users[id].passwordHash, data.password)
    ensures token.Some? ==>
              exists id :: id in db.users && Some(db.users[id].email) == data.email
                           && token.value.subject == Decimal(id) && ToInt(token.value.subject) == id
  {
    var found := db.UserIdByEmail(data.email);
    if found.Some? && check(db.users[found.value].passwordHash, data.password) {
      return OK, Some(IssueSession(found.value));
    }
    status, token := Unauthorized, None;
  }

  /** `forgot_password`: 404 and no mail for an unknown email; otherwise one
      mail to that user's address carrying a reset token for the user that
      expires one hour from now. The tables do not change. */
  method ForgotPassword(db: Store, email: Option<string>, now: int) returns (status: int)
    requires db.Valid()
    modifies db
    ensures db.Valid()
    ensures db.users == old(db.users) && db.posts == old(db.posts) && db.categories == old(db.categories)
    ensures db.nextUserId == old(db.nextUserId)
    ensures db.nextPostId == old(db.nextPostId) && db.nextCategoryId == old(db.nextCategoryId)
    ensures status in {OK, NotFound}
    ensures status == NotFound <==> !(email.Some? && EmailTaken(old(db.users), email.value))
    ensures status == NotFound ==> db.outbox == old(db.outbox)
    ensures status == OK ==>
              exists id :: id in db.users && Some(db.users[id].email) == email
                && db.outbox == old(db.outbox) + [Email(db.users[id].email, ResetSubject, IssueReset(id, now))]
  {
    var found := db.UserIdByEmail(email);
    if found.None? {
      return NotFound;
    }
    var id := found.value;
    db.outbox := db.outbox + [Email(db.users[id].email, ResetSubject, IssueReset(id, now))];
    status := OK;
  }

  /** `reset_password`: 400 when the token or the new password is missing,
      whatever the token holds; 400 when the token is invalid or expired; 404
      when its user is gone; otherwise only that user's password hash changes. */
  method ResetPassword(db: Store, data: ResetData, now: int, hash: string -> string) returns (status: int)
    requires db.Valid()
    modifies db
    ensures db.Valid()
    ensures db.posts == old(db.posts) && db.categories == old(db.categories) && db.outbox == old(db.outbox)
    ensures db.nextUserId == old(db.nextUserId)
    ensures db.nextPostId == old(db.nextPostId) && db.nextCategoryId == old(db.nextCategoryId)
    ensures status in {OK, BadRequest, NotFound}
    ensures data.token.None? || !Given(data.newPassword) ==> status == BadRequest
    ensures status == BadRequest <==>
              data.token.None? || !Given(data.newPassword) || !DecodeReset(data.token.value, now).Claims?
    ensures status == NotFound <==>
              && data.token.Some? && Given(data.newPassword)
              && DecodeReset(data.token.value, now).Claims?
              && data.token.value.userId !in old(db.users)
    ensures status != OK ==> db.users == old(db.users)
    ensures status == OK ==>
              && data.token.Some? && Given(data.newPassword)
              && DecodeReset(data.token.value, now) == Claims(data.token.value.userId)
              && data.token.value.userId in old(db.users)
              && db.users == old(db.users)[data.token.value.userId :=
                   old(db.users)[data.token.value.userId].(passwordHash := hash(data.newPassword.value))]
  {
    if data.token.None? || !Given(data.newPassword) {
      return BadRequest;
    }
    var decoded := DecodeReset(data.token.value, now);
    if decoded.Expired? || decoded.Invalid? {
      return BadRequest;
    }
    var user := Lookup(db.users, decoded.userId);
    if user.None? {
      return NotFound;
    }
    db.users := db.users[decoded.userId := user.value.(passwordHash := hash(data.newPassword.value))];
    status := OK;
  }
}

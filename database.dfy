/** The store every handler works on: the users, posts and categories tables,
    the outbox of mail handed to the mailer, and the next primary key of each
    table. A handler's changes are committed as one step; requests run one at a time. */
module Database {
  import opened Common
  import opened Records
  import opened Tokens

  /** `send_email(to, subject, body)`: the body is a link that carries the token. */
  datatype Email = Email(to: string, subject: string, token: ResetToken)

  class Store {
    var users: map<Id, User>
    var posts: map<Id, BlogPost>
    var categories: map<Id, Category>
    var outbox: seq<Email>
    var nextUserId: Id
    var nextPostId: Id
    var nextCategoryId: Id

    /** Keys below the counters, unique slugs, unique emails. The next key of
        each table is therefore free. */
    ghost predicate Valid()
      reads this
      ensures Valid() ==> nextUserId !in users && nextPostId !in posts && nextCategoryId !in categories
      ensures Valid() ==> SlugsUnique(posts) && EmailsUnique(users)
    {
      && (forall id :: id in users ==> id < nextUserId)
      && (forall id :: id in posts ==> id < nextPostId)
      && (forall id :: id in categories ==> id < nextCategoryId)
      && SlugsUnique(posts)
      && EmailsUnique(users)
    }

    /** An empty database; autoincrement keys start at 1. */
    constructor ()
      ensures Valid()
      ensures users == map[] && posts == map[] && categories == map[] && outbox == []
    {
      users, posts, categories, outbox := map[], map[], map[], [];
      nextUserId, nextPostId, nextCategoryId := 1, 1, 1;
    }

    /** `User.query.filter_by(email=email).first()`. A missing email (`None`)
        becomes `email IS NULL`, which no user row matches. */
    method UserIdByEmail(email: Option<string>) returns (found: Option<Id>)
      requires Valid()
      ensures found.None? <==> !(email.Some? && EmailTaken(users, email.value))
      ensures found.Some? ==> found.value in users && Some(users[found.value].email) == email
      ensures found.Some? ==>
                forall id :: id in users && Some(users[id].email) == email ==> id == found.value
    {
      if email.Some? && EmailTaken(users, email.value) {
        var id :| id in users && users[id].email == email.value;
        found := Some(id);
      } else {
        found := None;
      }
    }
  }
}

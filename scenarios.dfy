/** Request sequences, proved from the handlers' contracts alone. */
module Scenarios {
  import opened Common
  import opened Identity
  import opened Records
  import opened Database
  import opened BlogRoutes
  import opened AuthRoutes

  /** Registering the same email twice: the second attempt is a 409 and
      leaves the users table as the first one left it. */
  method RegisterTwiceConflicts(db: Store, data: RegisterData, hash: string -> string)
    returns (first: int, second: int)
    requires db.Valid()
    requires Given(data.username) && Given(data.email) && Given(data.password)
    modifies db
    ensures first in {Created, Conflict} && second == Conflict
  {
    first := Register(db, data, hash);
    if first == Created {
      assert db.users[old(db.nextUserId)].email == data.email.value;
    }
    second := Register(db, data, hash);
  }

  /** A new post is not listed until its author publishes it; once published
      it is listed with no views, and a fetch counts one view. */
  method PublishThenView(db: Store, identity: Identity, title: string, content: string,
                         now: int, slugify: string -> string)
    returns (post: Id)
    requires db.Valid() && db.posts == map[] && ToInt(identity) in db.users
    requires title != "" && content != ""
    modifies db
    ensures post in db.posts && db.posts[post].published && db.posts[post].views == 1
    ensures db.posts[post].slug == slugify(title)
  {
    var data := BlogData(Some(title), Some(content), None, None, None, None, None);
    var status, id := CreateBlog(db, identity, data, now, slugify);
    assert status == Created;
    post := id.value;
    assert GetAllBlogs(db.posts, db.users) == Some(map[]);

    ToIntOfDecimal(db.posts[post].authorId);
    var publish := BlogData(None, None, None, Some(true), None, None, None);
    status := UpdateBlog(db, identity, post, publish, now + 1);
    assert status == OK;
    var listing := GetAllBlogs(db.posts, db.users);
    assert listing.Some? && post in listing.value && listing.value[post].views == 0;

    var view;
    status, view := GetBlog(db, post, now + 2);
    assert status == OK && view.value.views == 1;
  }
}

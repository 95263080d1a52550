/** The blog routes (app/routes/blog.py). Protected routes receive the caller's
    session identity, the `str` that login put in the token. */
module BlogRoutes {
  import opened Common
  import opened Identity
  import opened PyValues
  import opened Tags
  import opened Records
  import opened Database
  import opened BlogModel

  /** The JSON body of a create or update request; `None` is a missing key,
      `Some(None)` an explicit null for a nullable column. */
  datatype BlogData = BlogData(
    title: Option<string>,
    content: Option<string>,
    slug: Option<string>,
    published: Option<bool>,
    categoryId: Option<Option<int>>,
    tags: Option<seq<string>>,
    imageUrl: Option<Option<string>>)

  /** One post as the read routes render it. */
  datatype PostView = PostView(
    id: Id, title: string, slug: string, content: string,
    author: string, createdAt: int, views: nat)

  /** The dict `get_all_blogs` and `get_blog` build for a post: its stored
      fields, and the author's username in place of the author id. */
  function View(id: Id, p: BlogPost, author: User): (v: PostView)
    ensures v.id == id && v.author == author.username
    ensures v.title == p.title && v.slug == p.slug && v.content == p.content
    ensures v.createdAt == p.createdAt && v.views == p.views
  {
    PostView(id, p.title, p.slug, p.content, author.username, p.createdAt, p.views)
  }

  // ---------------------------------------------------------------- create

  /** The `BlogPost(...)` call of the create route: views is not passed. */
  function CreateArgs(identity: Identity, data: BlogData, slug: string, now: int): PostArgs
    requires data.title.Some? && data.content.Some?
  {
    PostArgs(
      title := data.title.value,
      slug := Some(slug),
      content := data.content.value,
      authorId := ToInt(identity),
      categoryId := Flatten(data.categoryId),
      createdAt := Some(now),
      updatedAt := Some(now),
      published := Some(data.published.GetOr(false)),
      tags := Some(Join(data.tags.GetOr([]))),
      views := None,
      imageUrl := Flatten(data.imageUrl))
  }

  /** The post a successful create stores: written by the caller, unpublished
      unless the request says otherwise, no views yet, tags comma-joined. */
  function CreatedPost(identity: Identity, data: BlogData, now: int, slugify: string -> string): (p: BlogPost)
    requires data.title.Some? && data.content.Some?
    ensures p.title == data.title.value && p.content == data.content.value
    ensures p.slug == SlugOrDefault(data.slug, data.title.value, slugify)
    ensures Decimal(p.authorId) == identity
    ensures data.published.None? ==> !p.published
    ensures data.published.Some? ==> p.published == data.published.value
    ensures data.tags.None? ==> p.tags == Some("")
    ensures data.tags.Some? ==> p.tags == Some(Join(data.tags.value))
    ensures p.views == 0 && p.createdAt == now && p.updatedAt == now
    ensures p.categoryId == Flatten(data.categoryId) && p.imageUrl == Flatten(data.imageUrl)
  {
    Row(CreateArgs(identity, data, SlugOrDefault(data.slug, data.title.value, slugify), now), now)
  }

  /** `create_blog`: 400 unless title and content are truthy, then 409 when the
      chosen slug is taken, else exactly one new post. */
  method CreateBlog(db: Store, identity: Identity, data: BlogData, now: int, slugify: string -> string)
    returns (status: int, newId: Option<Id>)
    requires db.Valid()
    modifies db
    ensures db.Valid()
    ensures db.users == old(db.users) && db.categories == old(db.categories)
    ensures db.outbox == old(db.outbox)
    ensures db.nextUserId == old(db.nextUserId) && db.nextCategoryId == old(db.nextCategoryId)
    ensures status in {Created, BadRequest, Conflict}
    ensures status == BadRequest <==> !Given(data.title) || !Given(data.content)
    ensures status == Conflict <==>
              && Given(data.title) && Given(data.content)
              && SlugTaken(old(db.posts), SlugOrDefault(data.slug, data.title.value, slugify))
    ensures status != Created ==>
              db.posts == old(db.posts) && db.nextPostId == old(db.nextPostId) && newId.None?
    ensures status == Created ==>
              && newId == Some(old(db.nextPostId)) && newId.value !in old(db.posts)
              && db.nextPostId == old(db.nextPostId) + 1
              && db.posts == old(db.posts)[newId.value := CreatedPost(identity, data, now, slugify)]
  {
    if !Given(data.title) || !Given(data.content) {
      return BadRequest, None;
    }
    var slug := SlugOrDefault(data.slug, data.title.value, slugify);
    if SlugTaken(db.posts, slug) {
      return Conflict, None;
    }
    var id := db.nextPostId;
    db.posts := db.posts[id := Row(CreateArgs(identity, data, slug, now), now)];
    db.nextPostId := id + 1;
    status, newId := Created, Some(id);
  }

  // ------------------------------------------------------------------ read

  /** `get_all_blogs`: every published post and nothing else, each with its
      author's username. Looking up a missing author raises (`None.username`),
      which is the `None` result (a 500). */
  function GetAllBlogs(posts: map<Id, BlogPost>, users: map<Id, User>): (r: Option<map<Id, PostView>>)
    ensures r.None? <==> exists id :: id in posts && posts[id].published && posts[id].authorId !in users
    ensures r.Some? ==> forall id :: id in r.value <==> id in posts && posts[id].published
    ensures r.Some? ==> forall id :: id in r.value ==>
                          id in posts && r.value[id] == View(id, posts[id], users[posts[id].authorId])
  {
    if exists id :: id in posts && posts[id].published && posts[id].authorId !in users then None
    else Some(map id | id in posts && posts[id].published :: View(id, posts[id], users[posts[id].authorId]))
  }

  /** A fetched post: one more view, and `updated_at` refreshed by the
      column's `onupdate`; nothing else about the row changes. */
  function Viewed(p: BlogPost, now: int): (q: BlogPost)
    ensures q.views == p.views + 1 && q.updatedAt == now
    ensures q.(views := p.views, updatedAt := p.updatedAt) == p
  {
    p.(views := p.views + 1, updatedAt := now)
  }

  /** `get_blog`: 404 for a missing or unpublished post; otherwise the view
      count is incremented and committed, then the author is looked up for the
      response, which raises (500) when the author row is missing. */
  method GetBlog(db: Store, blogId: Id, now: int) returns (status: int, view: Option<PostView>)
    requires db.Valid()
    modifies db
    ensures db.Valid()
    ensures db.users == old(db.users) && db.categories == old(db.categories)
    ensures db.outbox == old(db.outbox) && db.nextPostId == old(db.nextPostId)
    ensures db.nextUserId == old(db.nextUserId) && db.nextCategoryId == old(db.nextCategoryId)
    ensures status in {OK, NotFound, InternalError}
    ensures status == NotFound <==> blogId !in old(db.posts) || !old(db.posts)[blogId].published
    ensures status == NotFound ==> db.posts == old(db.posts)
    ensures status != NotFound ==>
              db.posts == old(db.posts)[blogId := Viewed(old(db.posts)[blogId], now)]
    ensures status == InternalError <==> status != NotFound && old(db.posts)[blogId].authorId !in db.users
    ensures status == OK <==> view.Some?
    ensures status == OK ==>
              view.value == View(blogId, db.posts[blogId], db.users[db.posts[blogId].authorId])
  {
    var blog := Lookup(db.posts, blogId);
    if blog.None? || !blog.value.published {
      return NotFound, None;
    }
    var post := Viewed(blog.value, now);
    db.posts := db.posts[blogId := post];
    var author := Lookup(db.users, post.authorId);
    if author.None? {
      return InternalError, None;
    }
    status, view := OK, Some(View(blogId, post, author.value));
  }

  // ---------------------------------------------------------------- update

  /** The fields an update assigns: each key given in the request replaces the
      column, each missing key leaves it as it was. With no `tags` key the stored
      string is split on commas and joined again, which gives it back unchanged. */
  function Updated(post: BlogPost, data: BlogData, now: int): (p: BlogPost)
    requires post.tags.Some?
    ensures data.title.None? ==> p.title == post.title
    ensures data.title.Some? ==> p.title == data.title.value
    ensures data.content.None? ==> p.content == post.content
    ensures data.content.Some? ==> p.content == data.content.value
    ensures data.published.None? ==> p.published == post.published
    ensures data.published.Some? ==> p.published == data.published.value
    ensures data.categoryId.None? ==> p.categoryId == post.categoryId
    ensures data.categoryId.Some? ==> p.categoryId == data.categoryId.value
    ensures data.tags.None? ==> p.tags == post.tags
    ensures data.tags.Some? ==> p.tags == Some(Join(data.tags.value))
    ensures data.imageUrl.None? ==> p.imageUrl == post.imageUrl
    ensures data.imageUrl.Some? ==> p.imageUrl == data.imageUrl.value
    ensures p.slug == post.slug && p.authorId == post.authorId
    ensures p.views == post.views && p.createdAt == post.createdAt && p.updatedAt == now
  {
    JoinSplit(post.tags.value);
    post.(
      title := data.title.GetOr(post.title),
      content := data.content.GetOr(post.content),
      published := data.published.GetOr(post.published),
      categoryId := data.categoryId.GetOr(post.categoryId),
      tags := Some(Join(data.tags.GetOr(Split(post.tags.value)))),
      imageUrl := data.imageUrl.GetOr(post.imageUrl),
      updatedAt := now)
  }

  /** `update_blog`: 404 before any authorization; 403 unless
      `int(identity)` is the author; then the partial update. The default
      `blog.tags.split(",")` is evaluated even when the request has tags, so a
      post whose tags column is NULL raises (500) and nothing is committed. */
  method UpdateBlog(db: Store, identity: Identity, blogId: Id, data: BlogData, now: int)
    returns (status: int)
    requires db.Valid()
    modifies db
    ensures db.Valid()
    ensures db.users == old(db.users) && db.categories == old(db.categories)
    ensures db.outbox == old(db.outbox) && db.nextPostId == old(db.nextPostId)
    ensures db.nextUserId == old(db.nextUserId) && db.nextCategoryId == old(db.nextCategoryId)
    ensures status in {OK, NotFound, Forbidden, InternalError}
    ensures status == NotFound <==> blogId !in old(db.posts)
    ensures status == Forbidden <==>
              blogId in old(db.posts) && old(db.posts)[blogId].authorId != ToInt(identity)
    ensures status == Forbidden ==> Decimal(old(db.posts)[blogId].authorId) != identity
    ensures status == InternalError <==>
              && blogId in old(db.posts) && old(db.posts)[blogId].authorId == ToInt(identity)
              && old(db.posts)[blogId].tags.None?
    ensures status != OK ==> db.posts == old(db.posts)
    ensures status == OK ==>
              db.posts == old(db.posts)[blogId := Updated(old(db.posts)[blogId], data, now)]
  {
    var blog := Lookup(db.posts, blogId);
    if blog.None? {
      return NotFound;
    }
    var post := blog.value;
    if post.authorId != ToInt(identity) {
      ToIntOfDecimal(post.authorId);
      return Forbidden;
    }
    if post.tags.None? {
      return InternalError;
    }
    db.posts := db.posts[blogId := Updated(post, data, now)];
    status := OK;
  }

  // ---------------------------------------------------------------- delete

  /** The guard `blog.author_id != user_id and not user.is_admin` evaluated as
      Python does: the `int` author id never equals the `str` identity, so the
      second operand is always evaluated; on a missing user it raises, and
      otherwise `user.is_admin` without a call is a bound method, which is
      truthy. The guard therefore never holds. */
  function DeleteGuardAsWritten(authorId: Id, identity: Identity, user: Option<User>): (r: Eval<bool>)
    ensures r == if user.None? then Raised else Value(false)
  {
    var differs := !Eq(Int(authorId), Str(identity));
    if !differs then Value(false)
    else if user.None? then Raised
    else Value(!Truthy(Method("is_admin")))
  }

  /** The rule the route states: the author or an admin may delete. The author
      test compares like with like: the author's identity text with the caller's. */
  function DeleteAllowed(authorId: Id, identity: Identity, user: Option<User>, isAdmin: User -> bool): (allowed: bool)
    ensures Decimal(authorId) == identity ==> allowed
    ensures user.Some? && isAdmin(user.value) ==> allowed
    ensures allowed ==> Decimal(authorId) == identity || (user.Some? && isAdmin(user.value))
  {
    ToIntOfDecimal(authorId);
    authorId == ToInt(identity) || (user.Some? && isAdmin(user.value))
  }

  /** A user who is neither the author nor an admin passes the guard as
      written, though the intended rule refuses them. */
  lemma DeleteGuardAdmitsNonAuthorNonAdmin()
    ensures var bob := User("bob", "bob@example.com", "hash", None);
            var isAdmin := (u: User) => u.role == Some("admin");
            && DeleteGuardAsWritten(1, "2", Some(bob)) == Value(false)
            && !DeleteAllowed(1, "2", Some(bob), isAdmin)
  {
    var bob := User("bob", "bob@example.com", "hash", None);
    ToIntOfDecimal(2);
    assert Decimal(2) == "2";
    assert ToInt("2") == 2;
  }

  /** `delete_blog` as written: 404 for a missing post; the guard at line 122
      decides the rest, so any caller whose user row exists deletes the post
      and a caller without one gets a 500. */
  method DeleteBlog(db: Store, identity: Identity, blogId: Id) returns (status: int)
    requires db.Valid()
    modifies db
    ensures db.Valid()
    ensures db.users == old(db.users) && db.categories == old(db.categories)
    ensures db.outbox == old(db.outbox) && db.nextPostId == old(db.nextPostId)
    ensures db.nextUserId == old(db.nextUserId) && db.nextCategoryId == old(db.nextCategoryId)
    ensures status in {OK, NotFound, InternalError}
    ensures status == NotFound <==> blogId !in old(db.posts)
    ensures status != NotFound ==>
              var guard := DeleteGuardAsWritten(old(db.posts)[blogId].authorId, identity,
                                                Lookup(old(db.users), ToInt(identity)));
              && (status == InternalError <==> guard.Raised?)
              && (status == Forbidden <==> guard == Value(true))
    ensures status == InternalError <==> blogId in old(db.posts) && ToInt(identity) !in old(db.users)
    ensures status == OK ==> db.posts == old(db.posts) - {blogId}
    ensures status != OK ==> db.posts == old(db.posts)
  {
    var blog := Lookup(db.posts, blogId);
    if blog.None? {
      return NotFound;
    }
    var user := Lookup(db.users, ToInt(identity));
    var guard := DeleteGuardAsWritten(blog.value.authorId, identity, user);
    if guard.Raised? {
      return InternalError;
    }
    if guard.v {
      return Forbidden;
    }
    db.posts := db.posts - {blogId};
    status := OK;
  }

  /** `delete_blog` with the guard its comment states: 404 for a missing post,
      403 unless the caller is the author or an admin, else exactly that post
      is removed. */
  method DeleteBlogAuthorOrAdmin(db: Store, identity: Identity, blogId: Id, isAdmin: User -> bool)
    returns (status: int)
    requires db.Valid()
    modifies db
    ensures db.Valid()
    ensures db.users == old(db.users) && db.categories == old(db.categories)
    ensures db.outbox == old(db.outbox) && db.nextPostId == old(db.nextPostId)
    ensures db.nextUserId == old(db.nextUserId) && db.nextCategoryId == old(db.nextCategoryId)
    ensures status in {OK, NotFound, Forbidden}
    ensures status == NotFound <==> blogId !in old(db.posts)
    ensures status == Forbidden <==>
              blogId in old(db.posts)
              && !DeleteAllowed(old(db.posts)[blogId].authorId, identity,
                                Lookup(old(db.users), ToInt(identity)), isAdmin)
    ensures status == OK ==> db.posts == old(db.posts) - {blogId}
    ensures status != OK ==> db.posts == old(db.posts)
  {
    var blog := Lookup(db.posts, blogId);
    if blog.None? {
      return NotFound;
    }
    var user := Lookup(db.users, ToInt(identity));
    if !DeleteAllowed(blog.value.authorId, identity, user, isAdmin) {
      return Forbidden;
    }
    db.posts := db.posts - {blogId};
    status := OK;
  }
}

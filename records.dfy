/** The rows of the three tables. A table is a map from primary key to row, so
    the row types carry no id of their own. */
module Records {
  import opened Common

  type Id = nat

  /** A user row. `role` is a nullable string column; seeding writes "admin",
      registration leaves it unset. */
  datatype User = User(username: string, email: string, passwordHash: string, role: Option<string>)

  datatype Category = Category(name: string, description: Option<string>)

  /** A `BlogPost` row (app/models/blog.py). `title`, `slug`, `content` and
      `author_id` are NOT NULL. `category_id`, `tags` and `image_url` are
      nullable and are `Option`s here. `created_at`, `updated_at`, `published`
      and `views` are nullable columns too, but only their defaults or request
      values of their own type are modelled, so they are plain values. */
  datatype BlogPost = BlogPost(
    title: string,
    slug: string,
    content: string,
    authorId: Id,
    categoryId: Option<int>,
    createdAt: int,
    updatedAt: int,
    published: bool,
    tags: Option<string>,
    views: nat,
    imageUrl: Option<string>)

  /** `Model.query.get(id)`: the row with that primary key, or None. */
  function Lookup<V>(table: map<Id, V>, id: Id): (r: Option<V>)
    ensures r.Some? <==> id in table
    ensures r.Some? ==> r.value == table[id]
  {
    if id in table then Some(table[id]) else None
  }

  /** `BlogPost.query.filter_by(slug=slug).first()` finds a row: some stored
      post has that slug. */
  predicate SlugTaken(posts: map<Id, BlogPost>, slug: string)
    ensures SlugTaken(posts, slug) <==> exists p :: p in posts.Values && p.slug == slug
  {
    exists id :: id in posts && posts[id].slug == slug
  }

  /** The `unique=True` constraint on `slug`: no post shares its slug with
      another post, so the slug check before an insert keeps it. */
  predicate SlugsUnique(posts: map<Id, BlogPost>)
    ensures SlugsUnique(posts) <==>
              forall id :: id in posts ==> !SlugTaken(posts - {id}, posts[id].slug)
  {
    SlugsDistinct(posts);
    forall i, j :: i in posts && j in posts && posts[i].slug == posts[j].slug ==> i == j
  }

  /** Pairwise distinct slugs are slugs no other post has. */
  lemma SlugsDistinct(posts: map<Id, BlogPost>)
    ensures (forall i, j :: i in posts && j in posts && posts[i].slug == posts[j].slug ==> i == j) <==>
            (forall id :: id in posts ==> !SlugTaken(posts - {id}, posts[id].slug))
  {
    if forall id :: id in posts ==> !SlugTaken(posts - {id}, posts[id].slug) {
      forall i, j | i in posts && j in posts && posts[i].slug == posts[j].slug
        ensures i == j
      {
        assert !SlugTaken(posts - {i}, posts[i].slug);
        assert j !in posts - {i};
      }
    }
  }

  /** `User.query.filter_by(email=email).first()` finds a row: some stored
      user has that email. */
  predicate EmailTaken(users: map<Id, User>, email: string)
    ensures EmailTaken(users, email) <==> exists u :: u in users.Values && u.email == email
  {
    exists id :: id in users && users[id].email == email
  }

  /** No user shares an email with another user. */
  predicate EmailsUnique(users: map<Id, User>)
    ensures EmailsUnique(users) <==>
              forall id :: id in users ==> !EmailTaken(users - {id}, users[id].email)
  {
    EmailsDistinct(users);
    forall i, j :: i in users && j in users && users[i].email == users[j].email ==> i == j
  }

  /** Pairwise distinct emails are emails no other user has. */
  lemma EmailsDistinct(users: map<Id, User>)
    ensures (forall i, j :: i in users && j in users && users[i].email == users[j].email ==> i == j) <==>
            (forall id :: id in users ==> !EmailTaken(users - {id}, users[id].email))
  {
    if forall id :: id in users ==> !EmailTaken(users - {id}, users[id].email) {
      forall i, j | i in users && j in users && users[i].email == users[j].email
        ensures i == j
      {
        assert !EmailTaken(users - {i}, users[i].email);
        assert j !in users - {i};
      }
    }
  }
}

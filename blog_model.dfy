/** The `BlogPost` model (app/models/blog.py): the values a row takes when it is
    written, and `save()`, which fills in a missing slug and inserts the post. */
module BlogModel {
  import opened Common
  import opened Records
  import opened Database

  /** The keyword arguments a `BlogPost(...)` is built with; `None` is an
      argument that was not passed. The NOT NULL columns are plain values. */
  datatype PostArgs = PostArgs(
    title: string,
    slug: Option<string>,
    content: string,
    authorId: Id,
    categoryId: Option<int>,
    createdAt: Option<int>,
    updatedAt: Option<int>,
    published: Option<bool>,
    tags: Option<string>,
    views: Option<nat>,
    imageUrl: Option<string>)

  /** `slug or slugify(title)`: the slug is kept when it is truthy, and is
      otherwise derived from the title. The same rule is written in `save()` and
      in the create route; `slugify` (python-slugify) is a parameter. */
  function SlugOrDefault(slug: Option<string>, title: string, slugify: string -> string): (s: string)
    ensures Given(slug) ==> s == slug.value
    ensures !Given(slug) ==> s == slugify(title)
  {
    if Given(slug) then slug.value else slugify(title)
  }

  /** The row an INSERT writes: every argument that was passed, and the column
      default for the others (`views` 0, `published` False, both timestamps the
      current time). `slug` is NOT NULL, so a row is only written once it is set. */
  function Row(args: PostArgs, now: int): (p: BlogPost)
    requires args.slug.Some?
    ensures p.title == args.title && p.slug == args.slug.value && p.content == args.content
    ensures p.authorId == args.authorId && p.categoryId == args.categoryId
    ensures p.tags == args.tags && p.imageUrl == args.imageUrl
    ensures args.views.None? ==> p.views == 0
    ensures args.views.Some? ==> p.views == args.views.value
    ensures args.published.None? ==> !p.published
    ensures args.published.Some? ==> p.published == args.published.value
    ensures p.createdAt == (if args.createdAt.Some? then args.createdAt.value else now)
    ensures p.updatedAt == (if args.updatedAt.Some? then args.updatedAt.value else now)
  {
    BlogPost(
      title := args.title,
      slug := args.slug.value,
      content := args.content,
      authorId := args.authorId,
      categoryId := args.categoryId,
      createdAt := args.createdAt.GetOr(now),
      updatedAt := args.updatedAt.GetOr(now),
      published := args.published.GetOr(false),
      tags := args.tags,
      views := args.views.GetOr(0),
      imageUrl := args.imageUrl)
  }

  /** `post.save()` for a new post: a missing or empty slug becomes
      `slugify(title)`, then the row is added and committed. The unique
      constraint on `slug` makes the commit fail (`ok` false, nothing stored)
      when another post already has that slug. */
  method Save(db: Store, args: PostArgs, now: int, slugify: string -> string)
    returns (ok: bool, id: Id)
    requires db.Valid()
    modifies db
    ensures db.Valid()
    ensures db.users == old(db.users) && db.categories == old(db.categories)
    ensures db.outbox == old(db.outbox)
    ensures db.nextUserId == old(db.nextUserId) && db.nextCategoryId == old(db.nextCategoryId)
    ensures ok <==> !SlugTaken(old(db.posts), SlugOrDefault(args.slug, args.title, slugify))
    ensures ok ==> && id == old(db.nextPostId) && id !in old(db.posts)
                   && db.nextPostId == old(db.nextPostId) + 1
                   && db.posts == old(db.posts)[id := Row(args.(slug := Some(SlugOrDefault(args.slug, args.title, slugify))), now)]
    ensures !ok ==> db.posts == old(db.posts) && db.nextPostId == old(db.nextPostId)
  {
    var slug := args.slug;
    if !Given(slug) {
      slug := Some(slugify(args.title));
    }
    var row := Row(args.(slug := slug), now);
    if SlugTaken(db.posts, row.slug) {
      ok, id := false, 0;
      return;
    }
    id := db.nextPostId;
    db.posts := db.posts[id := row];
    db.nextPostId := id + 1;
    ok := true;
  }
}

/** The category routes (app/routes/category.py). Every mutating route first
    loads the caller's user row and requires `user.is_admin()`; `is_admin` is
    defined on the User model, which is not part of this model, so it is the
    parameter `isAdmin`. */
module CategoryRoutes {
  import opened Common
  import opened Identity
  import opened Records
  import opened Database

  /** The JSON body: `name`, and `description`, a nullable column. */
  datatype CategoryData = CategoryData(name: Option<string>, description: Option<Option<string>>)

  /** `user and user.is_admin()` for `user = User.query.get(identity)`: the
      caller is a stored user, the one whose id the identity names, and an admin. */
  predicate AdminCaller(users: map<Id, User>, identity: Identity, isAdmin: User -> bool)
    ensures AdminCaller(users, identity, isAdmin) <==>
              var user := Lookup(users, ToInt(identity)); user.Some? && isAdmin(user.value)
    ensures AdminCaller(users, identity, isAdmin) ==>
              exists id :: id in users && Decimal(id) == identity && isAdmin(users[id])
  {
    ToInt(identity) in users && isAdmin(users[ToInt(identity)])
  }

  /** `create_category`: 403 for a caller who is not an admin, whatever the
      body holds; then 400 for a missing or empty name; else exactly one new
      category with the given name and description. */
  method CreateCategory(db: Store, identity: Identity, data: CategoryData, isAdmin: User -> bool)
    returns (status: int)
    requires db.Valid()
    modifies db
    ensures db.Valid()
    ensures db.users == old(db.users) && db.posts == old(db.posts) && db.outbox == old(db.outbox)
    ensures db.nextUserId == old(db.nextUserId) && db.nextPostId == old(db.nextPostId)
    ensures status in {Created, BadRequest, Forbidden}
    ensures status == Forbidden <==> !AdminCaller(old(db.users), identity, isAdmin)
    ensures status == BadRequest <==> AdminCaller(old(db.users), identity, isAdmin) && !Given(data.name)
    ensures status != Created ==>
              db.categories == old(db.categories) && db.nextCategoryId == old(db.nextCategoryId)
    ensures status == Created ==>
              && old(db.nextCategoryId) !in old(db.categories)
              && db.nextCategoryId == old(db.nextCategoryId) + 1
              && db.categories == old(db.categories)[old(db.nextCategoryId) :=
                   Category(data.name.value, Flatten(data.description))]
  {
    var user := Lookup(db.users, ToInt(identity));
    if user.None? || !isAdmin(user.value) {
      return Forbidden;
    }
    if !Given(data.name) {
      return BadRequest;
    }
    var id := db.nextCategoryId;
    db.categories := db.categories[id := Category(data.name.value, Flatten(data.description))];
    db.nextCategoryId := id + 1;
    status := Created;
  }

  /** The fields an update assigns: a key in the request replaces the column,
      a missing key keeps it. */
  function UpdatedCategory(c: Category, data: CategoryData): (r: Category)
    ensures data.name.None? ==> r.name == c.name
    ensures data.name.Some? ==> r.name == data.name.value
    ensures data.description.None? ==> r.description == c.description
    ensures data.description.Some? ==> r.description == data.description.value
  {
    Category(data.name.GetOr(c.name), data.description.GetOr(c.description))
  }

  /** `update_category`: 403 before the lookup, then 404 for a missing id,
      else that category alone takes the partial update. */
  method UpdateCategory(db: Store, identity: Identity, id: Id, data: CategoryData, isAdmin: User -> bool)
    returns (status: int)
    requires db.Valid()
    modifies db
    ensures db.Valid()
    ensures db.users == old(db.users) && db.posts == old(db.posts) && db.outbox == old(db.outbox)
    ensures db.nextCategoryId == old(db.nextCategoryId)
    ensures db.nextUserId == old(db.nextUserId) && db.nextPostId == old(db.nextPostId)
    ensures status in {OK, Forbidden, NotFound}
    ensures status == Forbidden <==> !AdminCaller(old(db.users), identity, isAdmin)
    ensures status == NotFound <==> AdminCaller(old(db.users), identity, isAdmin) && id !in old(db.categories)
    ensures status != OK ==> db.categories == old(db.categories)
    ensures status == OK ==>
              db.categories == old(db.categories)[id := UpdatedCategory(old(db.categories)[id], data)]
  {
    var user := Lookup(db.users, ToInt(identity));
    if user.None? || !isAdmin(user.value) {
      return Forbidden;
    }
    var category := Lookup(db.categories, id);
    if category.None? {
      return NotFound;
    }
    db.categories := db.categories[id := UpdatedCategory(category.value, data)];
    status := OK;
  }

  /** `delete_category`: 403 before the lookup, then 404 for a missing id,
      else exactly that category is removed. */
  method DeleteCategory(db: Store, identity: Identity, id: Id, isAdmin: User -> bool)
    returns (status: int)
    requires db.Valid()
    modifies db
    ensures db.Valid()
    ensures db.users == old(db.users) && db.posts == old(db.posts) && db.outbox == old(db.outbox)
    ensures db.nextCategoryId == old(db.nextCategoryId)
    ensures db.nextUserId == old(db.nextUserId) && db.nextPostId == old(db.nextPostId)
    ensures status in {OK, Forbidden, NotFound}
    ensures status == Forbidden <==> !AdminCaller(old(db.users), identity, isAdmin)
    ensures status == NotFound <==> AdminCaller(old(db.users), identity, isAdmin) && id !in old(db.categories)
    ensures status == OK ==> db.categories == old(db.categories) - {id}
    ensures status != OK ==> db.categories == old(db.categories)
  {
    var user := Lookup(db.users, ToInt(identity));
    if user.None? || !isAdmin(user.value) {
      return Forbidden;
    }
    if id !in db.categories {
      return NotFound;
    }
    db.categories := db.categories - {id};
    status := OK;
  }

  /** `get_categories`: every category, as stored; it reads and changes nothing else. */
  method GetCategories(db: Store) returns (status: int, listing: map<Id, Category>)
    ensures status == OK
    ensures listing.Keys == db.categories.Keys
    ensures forall id :: id in listing ==> listing[id] == db.categories[id]
  {
    status, listing := OK, db.categories;
  }
}

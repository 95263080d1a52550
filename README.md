# flask_blog request handlers in Dafny

This project models the request-handling core of a small Flask blog backend.
The backend has user registration, login, password reset by emailed token,
and create/read/update/delete routes for blog posts and categories.

The database is one `Store` object (`database.dfy`). It holds three tables,
each a map from primary key to row: users, posts and categories. It also holds
an outbox of mail handed to the mailer and the next autoincrement key of each
table. Every route handler is a method that
takes the caller's identity and the request body, returns the HTTP status and
updates the store. Its contract says which status comes back in which case,
what the handler adds, removes or changes, and that nothing else changes. Every handler
keeps the store invariant `Store.Valid()`: keys are below the counters, slugs are
unique and emails are unique. The read-only parts are functions, or methods
that change nothing: the published-post listing, the category list, the login
decision, slug defaulting, tag joining and splitting, and token decoding.

Modules follow the source files:

- `common.dfy`, `identity.dfy`, `py_values.dfy`: shared vocabulary.
  - `Identity` is the session identity. It is the canonical decimal string
    `str(user.id)`, and `ToInt` reads it back. `int(user_id)` in the update route
    and the database's coercion of that string to an integer key are both `ToInt`.
  - `PyValues` holds just enough of Python's `==` and truthiness to evaluate the
    delete guard as Python does.
- `tags.dfy`: `",".join` and `str.split(",")`, with both round-trip lemmas.
- `tokens.dfy`: the session token and the password-reset token (`{user_id, exp}`
  plus a signature-valid flag), issue and decode.
- `records.dfy`, `database.dfy`: the rows, the uniqueness predicates and the store.
- `blog_model.dfy`: `BlogPost` column defaults and `save()`.
- `blog_routes.dfy`, `category_routes.dfy`, `auth_routes.dfy`, `seed_admin.dfy`: the handlers.
- `scenarios.dfy`: request sequences proved from the handlers' contracts alone.

How things outside the source are modelled:

- The model takes as parameters the collaborators whose code is not shown:
  - `slugify`. The create route passes `lowercase=True, separator="-"`, which are
    python-slugify's defaults, so `save()` and the create route use one function.
  - `hash`, for `set_password`.
  - `check`, for `check_password`.
  - `isAdmin`, for `User.is_admin()`.
- Time is integer seconds, passed in as `now`.
- Sending mail appends to `outbox`.
- `is_admin` is a method: the category routes call it as `user.is_admin()`. So
  `user.is_admin` written without a call, in the delete guard, is a bound
  method object, and such an object is always truthy.

Behaviour the model keeps as the code has it:

- `delete_blog` does not enforce "author or admin" (see Findings).
- A reset token is expired once `now >= exp`, as section 4.1.4 of RFC 7519
  requires: the current time must be strictly before `exp`.
- Register and create treat an empty string like a missing field (Python truthiness).
- A post whose `tags` column is NULL cannot be updated: `blog.tags.split(",")` is
  the default argument of `data.get`, so Python evaluates it on every update and
  it raises. The model answers 500 and commits nothing.
- `get_blog` commits the view increment before it looks up the author. A missing
  author row gives a 500, but the increment has already been stored.

## Model

| member | source | states |
|---|---|---|
| Identity.Decimal | app/routes/auth.py:35 | `str(user.id)` is canonical decimal text, and only id 0 starts with '0' |
| Identity.ToInt | app/routes/blog.py:96 | `int(identity)`: `str` of the result gives back exactly the identity text |
| Identity.ToIntOfDecimal | app/routes/auth.py:35 | `int(str(id)) == id`: an identity maps back to the id it was issued for |
| Identity.DecimalInjective | app/routes/auth.py:35 | distinct ids have distinct identity strings |
| PyValues.Eq | app/routes/blog.py:122 | an `int` never equals a `str`; same-type values compare by content |
| PyValues.Truthy | app/routes/blog.py:122 | a bound method object is truthy, `None` is falsy |
| Tags.Join | app/routes/blog.py:39 | `",".join`: the empty list gives "", one tag gives itself, and the result starts with the first tag |
| Tags.Split | app/routes/blog.py:104 | `split(",")` yields at least one piece and no piece contains a comma |
| Tags.JoinSplit | app/routes/blog.py:104 | joining the split pieces of any stored string gives that string back |
| Tags.SplitJoin | app/routes/blog.py:39 | a non-empty list of comma-free tags is recovered by split after join |
| Tokens.IssueSession | app/routes/auth.py:35 | the session token's subject is `str(id)` and maps back to `id` |
| Tokens.IssueReset | app/routes/auth.py:49-55 | the reset token carries the user id, `exp = now + 3600` and a valid signature |
| Tokens.DecodeReset | app/routes/auth.py:75-76 | invalid signature gives Invalid; otherwise `exp <= now` gives Expired; otherwise the claims |
| Tokens.ResetTokenLifetime | app/routes/auth.py:49-55 | a reset token decodes to its user for exactly one hour: valid at +59 min, expired at +61 min |
| Records.SlugTaken | app/routes/blog.py:27 | the slug query finds a row iff some stored post has that slug |
| Records.SlugsUnique | app/models/blog.py:8 | the unique slug constraint: each post's slug is taken by no other post |
| Records.EmailTaken | app/routes/auth.py:18 | the email query finds a row iff some stored user has that email |
| Records.EmailsUnique | app/routes/auth.py:18-19 | the invariant registration keeps: each user's email belongs to no other user |
| Database.Store.Valid | app/models/blog.py:6-8 | a valid store keeps slugs and emails unique, and each table's next autoincrement key is unused |
| Records.Lookup | app/routes/blog.py:69 | `query.get(id)` is Some exactly when the key is present, with that row |
| Database.Store.UserIdByEmail | app/routes/auth.py:18 | finds a user with the email iff one exists; with unique emails it is the only one; a missing email finds nobody |
| BlogModel.SlugOrDefault | app/models/blog.py:21-22 | a truthy slug is kept, otherwise the slug is `slugify(title)` |
| BlogModel.Row | app/models/blog.py:7-17 | a written row keeps every given argument; omitted `views` is 0, `published` False, timestamps now |
| BlogModel.Save | app/models/blog.py:19-24 | fills a missing slug from the title; inserts exactly one row unless the slug is taken (unique constraint), in which case nothing changes |
| BlogRoutes.View | app/routes/blog.py:53-61 | a rendered post carries its id, title, slug, content, created_at and views, and its author's username instead of the author id |
| BlogRoutes.CreatedPost | app/routes/blog.py:30-41 | the new post: author is the caller, `published` defaults to False, views 0, tags comma-joined ("" for none), timestamps now |
| BlogRoutes.CreateBlog | app/routes/blog.py:16-46 | 400 iff title or content falsy; else 409 iff the chosen slug is taken; else exactly one post added; other tables untouched; slug uniqueness kept |
| BlogRoutes.GetAllBlogs | app/routes/blog.py:50-64 | exactly the published posts, each with its author's username; fails iff a published post's author is missing |
| BlogRoutes.Viewed | app/routes/blog.py:73 | a fetch adds exactly one view and refreshes `updated_at`; no other field changes |
| BlogRoutes.GetBlog | app/routes/blog.py:68-84 | 404 with no change iff the post is absent or unpublished; otherwise only that post's views (+1) and `updated_at` change |
| BlogRoutes.Updated | app/routes/blog.py:100-106 | each field absent from the request keeps its value, tags included; given fields replace; slug, author, views and created_at kept |
| BlogRoutes.UpdateBlog | app/routes/blog.py:88-109 | 404 before 403; 403 iff `int(identity)` is not the author; 500 on NULL tags; otherwise only that post is updated |
| BlogRoutes.DeleteGuardAsWritten | app/routes/blog.py:122 | evaluated as Python does, the guard never holds and raises when the user row is missing |
| BlogRoutes.DeleteAllowed | app/routes/blog.py:111 | allowed exactly for the author (same identity text) or an admin |
| BlogRoutes.DeleteGuardAdmitsNonAuthorNonAdmin | app/routes/blog.py:111-123 | a non-author non-admin passes the written guard but not the intended rule |
| BlogRoutes.DeleteBlog | app/routes/blog.py:114-127 | 404 iff absent; never 403; 500 iff the caller's user is missing; otherwise exactly that post is removed |
| BlogRoutes.DeleteBlogAuthorOrAdmin | app/routes/blog.py:111-127 | 404 iff absent; 403 iff neither author nor admin, post kept; otherwise exactly that post is removed |
| CategoryRoutes.AdminCaller | app/routes/category.py:13-15 | the caller passes iff `User.query.get(identity)` finds a user for whom `is_admin()` holds: a stored admin whose id prints as the identity |
| CategoryRoutes.CreateCategory | app/routes/category.py:11-26 | 403 iff the caller is not an admin, before the name check; then 400 iff name falsy; else one category added with that name and description |
| CategoryRoutes.UpdatedCategory | app/routes/category.py:42-43 | absent name or description keep their values; given ones replace |
| CategoryRoutes.UpdateCategory | app/routes/category.py:30-46 | 403 before lookup; 404 iff absent; otherwise only that category changes |
| CategoryRoutes.DeleteCategory | app/routes/category.py:50-63 | 403 before lookup; 404 iff absent; otherwise exactly that category is removed |
| CategoryRoutes.GetCategories | app/routes/category.py:66-68 | returns every category as stored and changes nothing |
| AuthRoutes.Register | app/routes/auth.py:13-27 | 400 iff a field is falsy; else 409 iff the email is taken; else one user added with role unset and hashed password; emails stay unique |
| AuthRoutes.Login | app/routes/auth.py:30-38 | a token iff a user has the email and the password checks; its subject is `str(user.id)`; otherwise 401; no state change |
| AuthRoutes.ForgotPassword | app/routes/auth.py:41-62 | 404 and no mail for an unknown email; else exactly one mail to the user with a token for them expiring in one hour |
| AuthRoutes.ResetPassword | app/routes/auth.py:65-91 | 400 when token or password missing, or the token is invalid or expired; 404 for a missing user; otherwise only that user's hash changes |
| SeedAdmin.Seeded | seed_admin.py:9-15 | seeding adds at most the one new key, keeps every other user as it was, and leaves the table unchanged iff the admin email is already in use |
| SeedAdmin.Seed | seed_admin.py:5-18 | inserts the admin user ("admin", admin@example.com, role "admin") iff no user has that email; otherwise no change |
| SeedAdmin.SeededHasAdmin | seed_admin.py:9-15 | after seeding an admin-email user exists and every earlier user is unchanged |
| SeedAdmin.SeedIdempotent | seed_admin.py:9-18 | seeding twice leaves the same users table as seeding once |
| SeedAdmin.SeedKeepsEmailsUnique | seed_admin.py:9-15 | seeding keeps emails unique |
| Scenarios.RegisterTwiceConflicts | app/routes/auth.py:15-25 | registering the same valid data twice: the second answer is always 409 |
| Scenarios.PublishThenView | app/routes/blog.py:16-109 | a new post is unlisted until its author publishes it, is then listed with 0 views, and one fetch makes it 1 |

## Left out

- Flask request parsing: a request body is a record of optional fields. JSON
  `null` is modelled only for the nullable columns `category_id`, `image_url`
  and `description`. Values of the wrong JSON type are not modelled.
- JSON `null` for `published` (also `views`, `created_at`, `updated_at`): these
  columns are nullable, but the model holds them as plain values. So an update
  with `"published": null`, which stores NULL and leaves the post neither listed
  by `get_all_blogs` nor fetchable by `get_blog`, is not modelled.
- `jwt_required` and HS256 signing (section 3.2 of RFC 7518): a token is its
  claims plus a signature-valid flag. The only reset-token claims modelled are
  `user_id` and `exp`.
- bcrypt, `slugify`, `User.is_admin` and `check_password` are uninterpreted
  parameters. bcrypt's random salt is not modelled.
- SMTP delivery (app/utils.py) and the reset link's URL text: a mail is its
  recipient, its subject and the token it carries.
- Concurrency: requests run one at a time. The non-atomic view increment and
  the check-then-insert uniqueness races are therefore absent.
- Column length limits (`String(255)`, `String(500)`) and foreign-key
  enforcement are not modelled: a category can be deleted while posts refer to it.
- Timezone-aware datetimes are integer seconds. `print` calls are omitted.
- app/__init__.py, app/config.py and the migration hold no logic.
  The migration's only relevant fact is that `role` is nullable, which
  `User.role: Option<string>` models.
- BlogRoutes.GetAllBlogs: returns a map keyed by post id, so the order of the
  response list is not modelled.
- CategoryRoutes.GetCategories: returns a map keyed by category id, so the order
  of the response list is not modelled.
- BlogModel.Save: models `save()` on a new post only. `save()` on a post that is
  already stored, which would be an UPDATE, is not modelled.
- Primary keys come from per-table counters. The properties do not depend on
  which fresh key the database picks.

## Findings

| source | as written | input that shows it | evidently intended | confidence | as-written member | corrected member |
|---|---|---|---|---|---|---|
| app/routes/blog.py:122 | `blog.author_id != user_id and not user.is_admin` compares an `int` with the `str` identity, which is always unequal. It also reads `is_admin` without calling it, and a bound method is always truthy. So the guard never holds: any caller with a user row deletes any post, and a caller without one gets a 500. | post by author 1, caller identity "2", a user row with role unset | author or admin may delete, as the comment at line 111 says | high (not executed) | BlogRoutes.DeleteGuardAsWritten | BlogRoutes.DeleteAllowed |

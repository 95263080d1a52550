/** `seed_admin` (seed_admin.py): insert the admin user unless a user with the
    admin email already exists. */
module SeedAdmin {
  import opened Common
  import opened Records
  import opened Database

  const AdminEmail: string := "admin@example.com"
  const AdminUsername: string := "admin"
  const AdminPassword: string := "admin123"
  const AdminRole: string := "admin"

  function AdminUser(hash: string -> string): User {
    User(AdminUsername, AdminEmail, hash(AdminPassword), Some(AdminRole))
  }

  /** The users table after seeding, when the database would give the new row
      the key `newId`: at most that one key is added, every other user is kept
      as it was, and the table is unchanged exactly when the admin email was
      already in use. */
  function Seeded(users: map<Id, User>, newId: Id, hash: string -> string): (r: map<Id, User>)
    ensures users.Keys <= r.Keys <= users.Keys + {newId}
    ensures forall id :: id in users && id != newId ==> r[id] == users[id]
    ensures r == users <==> EmailTaken(users, AdminEmail)
  {
    if EmailTaken(users, AdminEmail) then users
    else
      var r := users[newId := AdminUser(hash)];
      assert r[newId].email == AdminEmail;
      r
  }

  /** `seed_admin`: check, then insert. */
  method Seed(db: Store, hash: string -> string)
    requires db.Valid()
    modifies db
    ensures db.Valid()
    ensures db.posts == old(db.posts) && db.categories == old(db.categories) && db.outbox == old(db.outbox)
    ensures db.nextPostId == old(db.nextPostId) && db.nextCategoryId == old(db.nextCategoryId)
    ensures db.users == Seeded(old(db.users), old(db.nextUserId), hash)
    ensures EmailTaken(old(db.users), AdminEmail) ==>
              db.users == old(db.users) && db.nextUserId == old(db.nextUserId)
    ensures !EmailTaken(old(db.users), AdminEmail) ==>
              && old(db.nextUserId) !in old(db.users)
              && db.nextUserId == old(db.nextUserId) + 1
              && db.users == old(db.users)[old(db.nextUserId) := AdminUser(hash)]
  {
    var existing := db.UserIdByEmail(Some(AdminEmail));
    if existing.None? {
      var id := db.nextUserId;
      db.users := db.users[id := AdminUser(hash)];
      db.nextUserId := id + 1;
    }
  }

  /** After seeding there is an admin-email user, and every user that was
      there before is still there, unchanged. */
  lemma SeededHasAdmin(users: map<Id, User>, newId: Id, hash: string -> string)
    requires newId !in users
    ensures EmailTaken(Seeded(users, newId, hash), AdminEmail)
    ensures forall id :: id in users ==> id in Seeded(users, newId, hash) && Seeded(users, newId, hash)[id] == users[id]
  {
    if !EmailTaken(users, AdminEmail) {
      assert Seeded(users, newId, hash)[newId].email == AdminEmail;
    }
  }

  /** Seeding twice leaves the same users table as seeding once, whatever key
      the second run would have used. */
  lemma SeedIdempotent(users: map<Id, User>, newId: Id, laterId: Id, hash: string -> string)
    requires newId !in users
    ensures Seeded(Seeded(users, newId, hash), laterId, hash) == Seeded(users, newId, hash)
  {
    SeededHasAdmin(users, newId, hash);
  }

  /** Seeding keeps emails unique. */
  lemma SeedKeepsEmailsUnique(users: map<Id, User>, newId: Id, hash: string -> string)
    requires EmailsUnique(users) && newId !in users
    ensures EmailsUnique(Seeded(users, newId, hash))
  {
  }
}

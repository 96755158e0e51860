/** The user collection as the core sees it: a map from identifiers to records,
    with the unique index on `email` and identifiers that are never reused. */
module UserStore {
  import opened Types

  /** The unique index on `email`: no two records share an email. */
  ghost predicate UniqueEmails(users: map<UserId, User>) {
    forall a, b :: a in users && b in users && users[a].email == users[b].email ==> a == b
  }

  /** Some record has exactly this email (lookups match the string as given). */
  predicate EmailTaken(users: map<UserId, User>, email: string) {
    exists id :: id in users && users[id].email == email
  }

  class UserCollection {
    var users: map<UserId, User>
    var nextId: UserId

    ghost predicate Valid()
      reads this
    {
      (forall id :: id in users ==> id < nextId) && UniqueEmails(users)
    }

    constructor ()
      ensures Valid() && users == map[]
    {
      users := map[];
      nextId := 0;
    }

    /** `findOne({ email })`: the record whose email is exactly `email`, if any. */
    method FindOne(email: string) returns (r: Option<UserId>)
      requires Valid()
      ensures r.Some? ==> r.value in users && users[r.value].email == email
      ensures r.None? <==> !EmailTaken(users, email)
    {
      if exists id :: id in users && users[id].email == email {
        var id :| id in users && users[id].email == email;
        r := Some(id);
      } else {
        r := None;
      }
    }

    /** `save()` of a new record: the next identifier, above every identifier
        handed out before, or `None` when the unique index on `email` refuses
        it (duplicate key). */
    method Create(u: User) returns (r: Option<UserId>)
      requires Valid()
      modifies this
      ensures Valid()
      ensures r.None? <==> EmailTaken(old(users), u.email)
      ensures r.None? ==> users == old(users)
      ensures r.Some? ==> r.value !in old(users) && users == old(users)[r.value := u]
      ensures r.Some? ==> r.value == old(nextId) && nextId == old(nextId) + 1
      ensures r.None? ==> nextId == old(nextId)
    {
      if exists id :: id in users && users[id].email == u.email {
        r := None;
      } else {
        r := Some(nextId);
        users := users[nextId := u];
        nextId := nextId + 1;
      }
    }

    /** `save()` of an existing record whose email is unchanged. */
    method Save(id: UserId, u: User)
      requires Valid() && id in users && u.email == users[id].email
      modifies this
      ensures Valid()
      ensures users == old(users)[id := u]
      ensures nextId == old(nextId)
    {
      users := users[id := u];
    }

    /** `findByIdAndDelete(id)` of an existing record. */
    method Delete(id: UserId)
      requires Valid() && id in users
      modifies this
      ensures Valid()
      ensures users == old(users) - {id}
      ensures nextId == old(nextId)
    {
      users := users - {id};
    }
  }
}

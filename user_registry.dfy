// The in-memory user list of backend/index.js and its POST /users handler.

module UserRegistry {
  import opened Wrappers
  import opened Text

  datatype User = User(id: nat, name: string, email: string)

  /** The handler's two replies: 201 with the new user, or 400 with a message. */
  datatype Reply = Created(user: User) | BadRequest(error: string)

  const NameAndEmailRequired: string := "Name and email are required."

  /** The ids are 1, 2, 3, ... in list order. */
  predicate ConsecutiveIds(users: seq<User>)
  {
    forall i :: 0 <= i < |users| ==> users[i].id == i + 1
  }

  /** Consecutive ids are unique, and each id locates its user. */
  lemma ConsecutiveIdsUnique(users: seq<User>)
    requires ConsecutiveIds(users)
    ensures forall i, j :: 0 <= i < |users| && 0 <= j < |users| && users[i].id == users[j].id ==> i == j
    ensures forall u | u in users :: 1 <= u.id <= |users| && users[u.id - 1] == u
  {
  }

  /** Appending a user whose id is one past the length keeps the ids consecutive. */
  lemma {:induction false} AppendNextId(users: seq<User>, u: User)
    requires ConsecutiveIds(users) && u.id == |users| + 1
    ensures ConsecutiveIds(users + [u])
  {
    forall i | 0 <= i < |users| + 1 ensures (users + [u])[i].id == i + 1 {
      if i < |users| {
        assert (users + [u])[i] == users[i];
      }
    }
  }

  class Registry {
    var users: seq<User>

    ghost predicate Valid()
      reads this
    {
      ConsecutiveIds(users)
    }

    /** The module-level `users` array starts empty. */
    constructor ()
      ensures Valid() && users == []
    {
      users := [];
    }

    /** POST /users: without a name or an email, 400 and the list unchanged;
        otherwise the user gets id `length + 1`, is appended at the end, and is
        returned with 201. */
    method CreateUser(name: Option<string>, email: Option<string>) returns (r: Reply)
      requires Valid()
      modifies this
      ensures Valid()
      ensures r.BadRequest? <==> !Present(name) || !Present(email)
      ensures r.BadRequest? ==> r.error == NameAndEmailRequired && users == old(users)
      ensures r.Created? ==>
        && r.user == User(|old(users)| + 1, name.value, email.value)
        && users == old(users) + [r.user]
        && forall u | u in old(users) :: u.id != r.user.id
    {
      if !Present(name) || !Present(email) {
        return BadRequest(NameAndEmailRequired);
      }
      var user := User(|users| + 1, name.value, email.value);
      AppendNextId(users, user);
      users := users + [user];
      r := Created(user);
      ConsecutiveIdsUnique(users);
    }
  }
}

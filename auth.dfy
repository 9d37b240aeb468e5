/**
 * The session: the signed-in user (or none), restored from the saved
 * record at start-up, replaced by `login` and `register`, extended by
 * `addFriend` and cleared by `logout`. Accounts are not checked against
 * anything: any email with a long enough password signs in.
 */
module Auth {
  import opened Wrappers
  import opened Types

  /** The shortest password `login` and `register` accept. */
  const MinPasswordLength: nat := 6

  /** The error `login` throws, and the one `register` throws, for a short password. */
  datatype AuthError = InvalidPassword | PasswordTooShort

  /** The user record as stored: its friend list may be missing. */
  datatype SavedUser = SavedUser(email: string, id: string, friends: Option<seq<string>>)

  /** The initial session: the saved user if there is one, a missing friend list read as `[]`. */
  function Restore(saved: Option<SavedUser>): (r: Option<User>)
    ensures r.None? <==> saved.None?
    ensures r.Some? ==> r.value.email == saved.value.email && r.value.id == saved.value.id
    ensures r.Some? && saved.value.friends.None? ==> r.value.friends == []
    ensures r.Some? && saved.value.friends.Some? ==> r.value.friends == saved.value.friends.value
  {
    match saved
    case None => None
    case Some(s) => Some(User(s.email, s.id, OrEmpty(s.friends)))
  }

  /** What the session writes back to storage: the user with its friend list, or nothing. */
  function Persist(user: Option<User>): (r: Option<SavedUser>)
    ensures r.None? <==> user.None?
    ensures r.Some? ==> r.value.friends.Some?
  {
    match user
    case None => None
    case Some(u) => Some(SavedUser(u.email, u.id, Some(u.friends)))
  }

  /** Restoring what was saved gives back the same session. */
  lemma RestorePersisted(user: Option<User>)
    ensures Restore(Persist(user)) == user
  {
  }

  /** `addFriend` on a signed-in user: an email not yet listed goes at the end. */
  function WithFriend(u: User, friend: string): (r: User)
    ensures r.email == u.email && r.id == u.id
    ensures friend in u.friends ==> r == u
    ensures friend !in u.friends ==> r.friends == u.friends + [friend]
  {
    if friend in u.friends then u else u.(friends := u.friends + [friend])
  }

  /** After `addFriend` the list holds the old friends and the new one, and nothing else. */
  lemma WithFriendMembers(u: User, friend: string)
    ensures friend in WithFriend(u, friend).friends
    ensures forall x :: x in WithFriend(u, friend).friends <==> x in u.friends || x == friend
  {
  }

  /** Adding the same friend twice is adding it once. */
  lemma WithFriendIdempotent(u: User, friend: string)
    ensures WithFriend(WithFriend(u, friend), friend) == WithFriend(u, friend)
  {
    assert friend in WithFriend(u, friend).friends;
  }

  /** No email is listed twice. */
  ghost predicate Distinct(friends: seq<string>) {
    forall i, j :: 0 <= i < j < |friends| ==> friends[i] != friends[j]
  }

  /** `addFriend` never introduces a duplicate. */
  lemma WithFriendKeepsDistinct(u: User, friend: string)
    requires Distinct(u.friends)
    ensures Distinct(WithFriend(u, friend).friends)
  {
    if friend !in u.friends {
      var fs := u.friends + [friend];
      forall i, j | 0 <= i < j < |fs| ensures fs[i] != fs[j] {
        if j == |u.friends| {
          assert fs[i] == u.friends[i];
        }
      }
    }
  }

  /** The authentication provider's state. */
  class AuthProvider {
    var user: Option<User>

    /** The friend list, when there is one, has no duplicates. */
    ghost predicate FriendsDistinct()
      reads this
    {
      user.Some? ==> Distinct(user.value.friends)
    }

    /** Start-up: the session restored from the saved record, if any. */
    constructor (saved: Option<SavedUser>)
      ensures user == Restore(saved)
    {
      user := Restore(saved);
    }

    /**
     * `login`: a password shorter than six characters is refused and the
     * session kept; otherwise `email` is signed in, with the fresh id and
     * no friends.
     */
    method Login(email: string, password: string, freshId: string) returns (error: Option<AuthError>)
      modifies this
      ensures |password| < MinPasswordLength ==> error == Some(InvalidPassword) && user == old(user)
      ensures |password| >= MinPasswordLength ==> error == None && user == Some(User(email, freshId, []))
      ensures old(FriendsDistinct()) ==> FriendsDistinct()
    {
      if |password| < MinPasswordLength {
        return Some(InvalidPassword);
      }
      user := Some(User(email, freshId, []));
      error := None;
    }

    /** `register`: the same as `login`, with its own error. */
    method Register(email: string, password: string, freshId: string) returns (error: Option<AuthError>)
      modifies this
      ensures |password| < MinPasswordLength ==> error == Some(PasswordTooShort) && user == old(user)
      ensures |password| >= MinPasswordLength ==> error == None && user == Some(User(email, freshId, []))
      ensures old(FriendsDistinct()) ==> FriendsDistinct()
    {
      if |password| < MinPasswordLength {
        return Some(PasswordTooShort);
      }
      user := Some(User(email, freshId, []));
      error := None;
    }

    /** `addFriend`: nothing without a signed-in user. */
    method AddFriend(friend: string)
      modifies this
      ensures old(user).None? ==> user == None
      ensures old(user).Some? ==> user == Some(WithFriend(old(user).value, friend))
      ensures old(FriendsDistinct()) ==> FriendsDistinct()
    {
      if user.Some? {
        var u := user.value;
        if friend !in u.friends {
          if Distinct(u.friends) {
            WithFriendKeepsDistinct(u, friend);
          }
          user := Some(u.(friends := u.friends + [friend]));
        }
      }
    }

    /** `logout`. */
    method Logout()
      modifies this
      ensures user == None
      ensures FriendsDistinct()
    {
      user := None;
    }
  }
}

/** The user and follow records (backend/users/models.py). */
module Users {
  import opened Common

  /** A registered account. `isStaff` is the Django staff flag used by the
      permission checks. */
  datatype User = User(id: nat, username: string, isStaff: bool)

  /** A follow row: `user` subscribes to `following` (both user ids). */
  datatype Follow = Follow(user: nat, following: nat)

  /** The party behind a request: an anonymous visitor or a signed-in user. */
  datatype Requester = Anonymous | SignedIn(account: User)

  /** `request.user.id`: `None` for the anonymous visitor. */
  function RequesterId(r: Requester): (id: Option<nat>)
    ensures id.None? <==> r.Anonymous?
    ensures r.SignedIn? ==> id == Some(r.account.id)
  {
    match r
    case Anonymous => None
    case SignedIn(u) => Some(u.id)
  }

  /** `User.__str__`: a user is displayed by its username. */
  function UserStr(u: User): (s: string)
    ensures s == u.username
  {
    u.username
  }

  /** Django's `AbstractUser` declares `username` unique. */
  predicate UniqueUsernames(users: seq<User>)
  {
    UniqueBy(users, (u: User) => u.username)
  }

  /** Within one user table, the display string identifies the user. */
  lemma UserStrIdentifies(users: seq<User>, a: User, b: User)
    requires UniqueUsernames(users)
    requires a in users && b in users
    requires UserStr(a) == UserStr(b)
    ensures a == b
  {
    var i :| 0 <= i < |users| && users[i] == a;
    var j :| 0 <= j < |users| && users[j] == b;
    if i != j {
      assert false;
    }
  }

  /** The `unique_user_following` constraint: at most one row per
      (user, following) pair. */
  predicate UniqueFollows(follows: seq<Follow>)
  {
    UniqueBy(follows, (f: Follow) => f)
  }

  /** Both foreign keys of `Follow` cascade: deleting user `uid` removes the
      rows where it follows and the rows where it is followed. */
  function DeleteUserFollows(follows: seq<Follow>, uid: nat): (r: seq<Follow>)
    ensures forall f :: f in r <==> f in follows && f.user != uid && f.following != uid
  {
    Filter(follows, (f: Follow) => f.user != uid && f.following != uid)
  }

  /** The cascade keeps the follow table free of duplicate pairs. */
  lemma DeleteUserFollowsKeepsUnique(follows: seq<Follow>, uid: nat)
    requires UniqueFollows(follows)
    ensures UniqueFollows(DeleteUserFollows(follows, uid))
  {
    FilterPreservesUnique(follows, (f: Follow) => f.user != uid && f.following != uid, (f: Follow) => f);
  }

  /** The storage layer declares only uniqueness: a row in which a user follows
      itself is a legal table. */
  lemma StorageAllowsSelfFollow(uid: nat)
    ensures UniqueFollows([Follow(uid, uid)])
  {
  }
}

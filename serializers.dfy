/** The follow serializer of backend/api/serializers.py: the `following`
    field resolved by username, the (user, following) uniqueness validator and
    the self-follow check of `validate`. */
module Serializers {
  import opened Common
  import opened Users

  const DUPLICATE_MESSAGE := "Такая подписка уже существует!"
  const SELF_FOLLOW_MESSAGE := "Нельзя подписаться на себя!"

  /** The submitted data. `user` is a read-only field: its submitted value is
      ignored and the requesting user is used instead. */
  datatype FollowData = FollowData(user: int, following: string)

  datatype FollowError =
    | UnknownFollowing(slug: string)
    | AlreadySubscribed
    | SelfSubscription

  function ErrorText(e: FollowError): (s: string)
    ensures e == AlreadySubscribed ==> s == DUPLICATE_MESSAGE
    ensures e == SelfSubscription ==> s == SELF_FOLLOW_MESSAGE
  {
    match e
    case UnknownFollowing(slug) => "Object with username=" + slug + " does not exist."
    case AlreadySubscribed => DUPLICATE_MESSAGE
    case SelfSubscription => SELF_FOLLOW_MESSAGE
  }

  /** The user with the given username, if any (the slug field's lookup). */
  function FindByUsername(users: seq<User>, name: string): (r: Option<User>)
    ensures r.Some? ==> r.value in users && r.value.username == name
    ensures r.None? <==> forall u :: u in users ==> u.username != name
  {
    if users == [] then None
    else if users[0].username == name then Some(users[0])
    else FindByUsername(users[1..], name)
  }

  /** With unique usernames, looking up a user's own username finds that user. */
  lemma {:induction false} FindByOwnUsername(users: seq<User>, u: User)
    requires UniqueUsernames(users)
    requires u in users
    ensures FindByUsername(users, u.username) == Some(u)
  {
    if users[0] != u {
      assert u in users[1..];
      var k :| 0 <= k < |users| && users[k] == u;
      assert k != 0;
      assert users[0].username != u.username;
      assert UniqueUsernames(users[1..]) by {
        forall i, j | 0 <= i < j < |users[1..]|
          ensures users[1..][i].username != users[1..][j].username
        {
          assert users[1..][i] == users[i + 1] && users[1..][j] == users[j + 1];
        }
      }
      FindByOwnUsername(users[1..], u);
    }
  }

  /** `is_valid()`: field validation (resolve `following`), then the
      uniqueness validator, then `validate` (no self-follow). On success the
      validated attributes are passed through unchanged. */
  function ValidateFollow(users: seq<User>, follows: seq<Follow>, current: User, data: FollowData)
    : (r: Result<Follow, FollowError>)
    ensures r.Ok? ==> r.value.user == current.id && r.value !in follows && r.value.user != r.value.following
    ensures r.Ok? ==> exists u :: u in users && u.username == data.following && u.id == r.value.following
    ensures r == Err(UnknownFollowing(data.following)) <==> FindByUsername(users, data.following).None?
  {
    match FindByUsername(users, data.following)
    case None => Err(UnknownFollowing(data.following))
    case Some(target) =>
      var attrs := Follow(current.id, target.id);
      if attrs in follows then Err(AlreadySubscribed)
      else if current.id == target.id then Err(SelfSubscription)
      else Ok(attrs)
  }

  /** The submitted `user` value plays no part: the requesting user is always
      the follower. */
  lemma FollowUserIsReadOnly(users: seq<User>, follows: seq<Follow>, current: User, data: FollowData, other: int)
    ensures ValidateFollow(users, follows, current, data)
         == ValidateFollow(users, follows, current, data.(user := other))
  {
  }

  /** Following oneself always fails, whatever the follow table holds. */
  lemma SelfFollowRejected(users: seq<User>, follows: seq<Follow>, current: User, data: FollowData)
    requires UniqueUsernames(users) && current in users
    requires data.following == current.username
    ensures ValidateFollow(users, follows, current, data).Err?
    ensures Follow(current.id, current.id) !in follows ==>
              ValidateFollow(users, follows, current, data) == Err(SelfSubscription)
  {
    FindByOwnUsername(users, current);
  }

  /** A pair that already exists is rejected as a duplicate, before the
      self-follow check. */
  lemma DuplicateFollowRejected(users: seq<User>, follows: seq<Follow>, current: User, target: User)
    requires UniqueUsernames(users) && target in users
    requires Follow(current.id, target.id) in follows
    ensures ValidateFollow(users, follows, current, FollowData(current.id, target.username)) == Err(AlreadySubscribed)
  {
    FindByOwnUsername(users, target);
  }

  /** When neither check fails, the follow row built from the attributes is
      accepted. */
  lemma ValidFollowAccepted(users: seq<User>, follows: seq<Follow>, current: User, target: User)
    requires UniqueUsernames(users) && target in users
    requires Follow(current.id, target.id) !in follows && current.id != target.id
    ensures ValidateFollow(users, follows, current, FollowData(current.id, target.username))
         == Ok(Follow(current.id, target.id))
  {
    FindByOwnUsername(users, target);
  }
}

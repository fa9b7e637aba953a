/**
 * `DatabaseService` of backend/cliquepay/db_service.py over an abstract
 * store: the `users` and `friendships` tables as sequences of rows.  The
 * store's invariant is what the database enforces: unique user ids, Cognito
 * ids and emails, canonical unique friendship pairs, and foreign keys that
 * resolve.
 */
module DbService {
  import opened Js
  import opened Models
  import Security

  datatype Store = Store(users: seq<User>, friendships: seq<Friendship>)

  function UserId(u: User): string { u.id }
  function UserCognitoId(u: User): string { u.cognitoId }
  function UserEmail(u: User): string { u.email }

  /** `User.objects.get(<column>=key)` on a column the table keeps unique: the first row that matches. */
  function Lookup(us: seq<User>, column: User -> string, key: string): (r: Option<User>)
    ensures r.None? <==> forall i :: 0 <= i < |us| ==> column(us[i]) != key
    ensures r.Some? ==> r.value in us && column(r.value) == key
    decreases |us|
  {
    if |us| == 0 then None
    else if column(us[0]) == key then Some(us[0])
    else Lookup(us[1..], column, key)
  }

  predicate HasUser(us: seq<User>, id: string) {
    exists i :: 0 <= i < |us| && us[i].id == id
  }

  lemma LookupFinds(us: seq<User>, id: string)
    requires HasUser(us, id)
    ensures Lookup(us, UserId, id).Some?
  {
    var i :| 0 <= i < |us| && us[i].id == id;
    assert UserId(us[i]) == id;
  }

  /** No two rows share a value of `column`. */
  predicate UniqueColumn(us: seq<User>, column: User -> string) {
    forall i, j :: 0 <= i < j < |us| ==> column(us[i]) != column(us[j])
  }

  predicate Valid(db: Store) {
    && UniqueColumn(db.users, UserId)
    && UniqueColumn(db.users, UserCognitoId)
    && UniqueColumn(db.users, UserEmail)
    && FriendshipsValid(db.friendships)
    && forall k :: 0 <= k < |db.friendships| ==>
         && HasUser(db.users, db.friendships[k].user1)
         && HasUser(db.users, db.friendships[k].user2)
         && HasUser(db.users, db.friendships[k].actionUser)
  }

  // ---------------------------------------------------------------- create_user

  const CreatedMessage := "User created successfully"
  const UserNotFound := "User not found"

  datatype UserData = UserData(name: string, fullName: string, email: string, phoneNumber: Option<string>)
  datatype Created = Created(message: string, userId: string, data: UserData)

  /** Some row already holds the new user's id, Cognito id or email. */
  predicate Conflicts(us: seq<User>, id: string, cognitoId: string, email: string) {
    exists i :: 0 <= i < |us| && (us[i].id == id || us[i].cognitoId == cognitoId || us[i].email == email)
  }

  /**
   * Some value exceeds its column's declared `max_length` (an `EmailField`
   * defaults to 254 characters).
   */
  predicate TooLong(id: string, cognitoId: string, name: string, email: string,
                    fullName: string, phoneNumber: Option<string>) {
    |id| > 128 || |cognitoId| > 255 || |name| > 100 || |email| > 254 || |fullName| > 150
    || (phoneNumber.Some? && |phoneNumber.value| > 16)
  }

  /**
   * `create_user`: inserts a row under the freshly generated `newId`, whose
   * `created_at` and `updated_at` take the clock readings `createdAt` and
   * `updatedAt`.  The database raises on a unique-constraint violation and,
   * when it enforces column lengths (`enforcesLength`: PostgreSQL does, SQLite
   * does not), on an over-long value; the reply then carries the exception's
   * text, given here as `dbError`.
   */
  function CreateUser(db: Store, newId: string, cognitoId: string, name: string, email: string,
                      fullName: string, phoneNumber: Option<string>, createdAt: int, updatedAt: int,
                      enforcesLength: bool, dbError: string): (r: (Store, Result<Created>))
    ensures r.1.Ok? <==>
              !Conflicts(db.users, newId, cognitoId, email)
              && !(enforcesLength && TooLong(newId, cognitoId, name, email, fullName, phoneNumber))
    ensures r.1.Ok? ==> r.1.value == Created(CreatedMessage, newId, UserData(name, fullName, email, phoneNumber))
    ensures r.1.Ok? ==>
              && r.0.friendships == db.friendships
              && r.0.users == db.users + [NewUser(newId, cognitoId, name, email, Some(fullName), phoneNumber,
                                                  createdAt, updatedAt)]
    ensures r.1.Err? ==> r.0 == db && r.1.message == dbError
    ensures Valid(db) ==> Valid(r.0)
  {
    if Conflicts(db.users, newId, cognitoId, email) then (db, Err(dbError))
    else if enforcesLength && TooLong(newId, cognitoId, name, email, fullName, phoneNumber) then (db, Err(dbError))
    else
      var u := NewUser(newId, cognitoId, name, email, Some(fullName), phoneNumber, createdAt, updatedAt);
      var db' := db.(users := db.users + [u]);
      assert forall id :: HasUser(db.users, id) ==> HasUser(db'.users, id) by {
        forall id | HasUser(db.users, id) ensures HasUser(db'.users, id) {
          var i :| 0 <= i < |db.users| && db.users[i].id == id;
          assert db'.users[i].id == id;
        }
      }
      (db', Ok(Created(CreatedMessage, u.id, UserData(u.name, u.fullName, u.email, u.phoneNumber))))
  }

  /**
   * The row is written with `objects.create`, which does not run field
   * validators: a phone number the model's `phone_regex` rejects is stored,
   * whatever Python counts as a decimal digit.
   */
  lemma CreateStoresUnvalidatedPhone(db: Store, newId: string, cognitoId: string, name: string,
                                     email: string, fullName: string, createdAt: int, updatedAt: int,
                                     enforcesLength: bool, dbError: string, isDecimal: char -> bool)
    requires !Conflicts(db.users, newId, cognitoId, email)
    requires !TooLong(newId, cognitoId, name, email, fullName, None)
    ensures var r := CreateUser(db, newId, cognitoId, name, email, fullName, Some("12345"),
                                createdAt, updatedAt, enforcesLength, dbError);
            r.1.Ok? && !PhoneFieldAccepts(r.0.users[|r.0.users| - 1].phoneNumber, isDecimal)
            && !PhoneFieldValid(r.0.users[|r.0.users| - 1].phoneNumber)
  {
    var p := "12345";
    assert !PyCovers(p, isDecimal);
    assert p[|p| - 1] != '\n';
    assert !Security.PhoneMatches(p);
  }

  // ---------------------------------------------------------------- get_user_by_cognito_id

  datatype Profile = Profile(
    id: string, name: string, fullName: string, email: string,
    phoneNumber: Option<string>, createdAt: int, updatedAt: int)

  /** The stored columns `get_user_by_cognito_id` reports. */
  function ProfileOf(u: User): Profile {
    Profile(u.id, u.name, u.fullName, u.email, u.phoneNumber, u.createdAt, u.updatedAt)
  }

  function GetUserByCognitoId(db: Store, cognitoId: string): (r: Result<Profile>)
    ensures r.Err? <==> forall i :: 0 <= i < |db.users| ==> db.users[i].cognitoId != cognitoId
    ensures r.Err? ==> r.message == UserNotFound
    ensures r.Ok? ==> exists i :: 0 <= i < |db.users| && db.users[i].cognitoId == cognitoId
                                  && r.value == ProfileOf(db.users[i])
  {
    match Lookup(db.users, UserCognitoId, cognitoId)
    case None => Err(UserNotFound)
    case Some(u) => Ok(ProfileOf(u))
  }

  /** A user just created is found by its Cognito id, with the data it was created with. */
  lemma CreateThenGet(db: Store, newId: string, cognitoId: string, name: string, email: string,
                      fullName: string, phoneNumber: Option<string>, createdAt: int, updatedAt: int,
                      enforcesLength: bool, dbError: string)
    requires Valid(db)
    requires CreateUser(db, newId, cognitoId, name, email, fullName, phoneNumber,
                        createdAt, updatedAt, enforcesLength, dbError).1.Ok?
    ensures var db' := CreateUser(db, newId, cognitoId, name, email, fullName, phoneNumber,
                                  createdAt, updatedAt, enforcesLength, dbError).0;
            GetUserByCognitoId(db', cognitoId)
              == Ok(Profile(newId, name, fullName, email, phoneNumber, createdAt, updatedAt))
  {
    var db' := CreateUser(db, newId, cognitoId, name, email, fullName, phoneNumber,
                          createdAt, updatedAt, enforcesLength, dbError).0;
    var r := GetUserByCognitoId(db', cognitoId);
    var i :| 0 <= i < |db'.users| && db'.users[i].cognitoId == cognitoId && r.value == ProfileOf(db'.users[i]);
    assert i == |db.users|;
  }

  // ---------------------------------------------------------------- get_user_friends

  /** The user is one of the friendship's two parties: `Q(user1=user) | Q(user2=user)`. */
  predicate Involves(f: Friendship, userId: string) {
    f.user1 == userId || f.user2 == userId
  }

  /** `friendship.user2 if friendship.user1_id == user_id else friendship.user1`. */
  function OtherParty(f: Friendship, userId: string): string {
    if f.user1 == userId then f.user2 else f.user1
  }

  /** The friendships the query selects, in table order. */
  function FriendshipsOf(fs: seq<Friendship>, userId: string): (r: seq<Friendship>)
    ensures |r| <= |fs|
    ensures forall f :: f in r <==> f in fs && Involves(f, userId)
    decreases |fs|
  {
    if |fs| == 0 then []
    else
      var last := fs[|fs| - 1];
      FriendshipsOf(fs[..|fs| - 1], userId) + (if Involves(last, userId) then [last] else [])
  }

  datatype FriendEntry = FriendEntry(
    friendId: string, friendName: string, status: string, initiator: bool, createdAt: int)

  /** One entry per selected friendship, in order, describing the other party. */
  function Project(users: seq<User>, mine: seq<Friendship>, userId: string): (r: seq<FriendEntry>)
    requires forall f :: f in mine ==> HasUser(users, OtherParty(f, userId))
    ensures |r| == |mine|
    ensures forall k :: 0 <= k < |mine| ==>
              && r[k].friendId == OtherParty(mine[k], userId)
              && r[k].status == mine[k].status
              && (r[k].initiator <==> mine[k].actionUser == userId)
              && r[k].createdAt == mine[k].createdAt
              && exists i :: 0 <= i < |users| && users[i].id == r[k].friendId && users[i].fullName == r[k].friendName
    decreases |mine|
  {
    if |mine| == 0 then []
    else
      var f := mine[0];
      assert f in mine;
      LookupFinds(users, OtherParty(f, userId));
      var friend := Lookup(users, UserId, OtherParty(f, userId)).value;
      [FriendEntry(friend.id, friend.fullName, f.status, f.actionUser == userId, f.createdAt)]
        + Project(users, mine[1..], userId)
  }

  lemma FriendsResolve(db: Store, userId: string)
    requires Valid(db)
    ensures forall f :: f in FriendshipsOf(db.friendships, userId) ==> HasUser(db.users, OtherParty(f, userId))
  {
  }

  /**
   * `get_user_friends`: for a known user, one entry per friendship the user
   * is part of; `User not found` otherwise.
   */
  function GetUserFriends(db: Store, userId: string): (r: Result<seq<FriendEntry>>)
    requires Valid(db)
    ensures r.Err? <==> !HasUser(db.users, userId)
    ensures r.Err? ==> r.message == UserNotFound
    ensures r.Ok? ==> |r.value| == |FriendshipsOf(db.friendships, userId)|
  {
    if !HasUser(db.users, userId) then Err(UserNotFound)
    else
      FriendsResolve(db, userId);
      Ok(Project(db.users, FriendshipsOf(db.friendships, userId), userId))
  }

  /**
   * Each entry names the other party of its friendship, copies the status
   * verbatim and flags the user as initiator exactly when the user made the
   * last action; the entries are those of exactly the user's friendships.
   */
  lemma FriendEntriesDescribeFriendships(db: Store, userId: string)
    requires Valid(db) && HasUser(db.users, userId)
    ensures var r := GetUserFriends(db, userId);
            var mine := FriendshipsOf(db.friendships, userId);
            && r.Ok? && |r.value| == |mine|
            && (forall f :: f in mine <==> f in db.friendships && Involves(f, userId))
            && forall k :: 0 <= k < |mine| ==>
                 && r.value[k].friendId == OtherParty(mine[k], userId)
                 && (mine[k].user1 == userId ==> r.value[k].friendId == mine[k].user2)
                 && (mine[k].user1 != userId ==> r.value[k].friendId == mine[k].user1)
                 && r.value[k].status == mine[k].status
                 && (r.value[k].initiator <==> mine[k].actionUser == userId)
  {
  }

  /** Selecting the friendships of one user keeps the table's constraints. */
  lemma {:induction false} FriendshipsOfValid(fs: seq<Friendship>, userId: string)
    requires FriendshipsValid(fs)
    ensures FriendshipsValid(FriendshipsOf(fs, userId))
    decreases |fs|
  {
    if |fs| > 0 {
      var init := fs[..|fs| - 1];
      var last := fs[|fs| - 1];
      assert FriendshipsValid(init);
      FriendshipsOfValid(init, userId);
      if Involves(last, userId) {
        var prev := FriendshipsOf(init, userId);
        forall x | x in prev ensures x.user1 != last.user1 || x.user2 != last.user2 {
          var i :| 0 <= i < |init| && init[i] == x;
          assert fs[i] == x;
        }
      }
    }
  }

  /**
   * No friend is listed twice and the user is never their own friend: the
   * canonical-pair constraints leave one friendship per other party.
   */
  lemma FriendIdsDistinct(db: Store, userId: string)
    requires Valid(db) && HasUser(db.users, userId)
    ensures var r := GetUserFriends(db, userId);
            && (forall k :: 0 <= k < |r.value| ==> r.value[k].friendId != userId)
            && forall k, l :: 0 <= k < l < |r.value| ==> r.value[k].friendId != r.value[l].friendId
  {
    var mine := FriendshipsOf(db.friendships, userId);
    var r := GetUserFriends(db, userId).value;
    FriendshipsOfValid(db.friendships, userId);
    forall k | 0 <= k < |r| ensures r[k].friendId != userId {
      assert mine[k] in mine;
      LexLessAsymmetric(mine[k].user1, mine[k].user2);
    }
    forall k, l | 0 <= k < l < |r| ensures r[k].friendId != r[l].friendId {
      assert mine[k] in mine && mine[l] in mine;
      if r[k].friendId == r[l].friendId {
        AtMostOneFriendshipPerPair(mine, userId, r[k].friendId, k, l);
      }
    }
  }
}

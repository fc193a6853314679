/**
 * The user repository: a list of `User` records kept under the storage key
 * 'rbac_users' and rewritten as a whole by every mutating call.
 */
module UserStore {
  import opened Wrappers
  import opened ArrayOps

  /** A calendar date, kept opaque as milliseconds since the epoch (UTC). */
  datatype Date = Date(epochMillis: int)

  datatype User = User(
    id: int,
    username: string,
    password: string,
    firstName: string,
    lastName: string,
    email: string,
    phone: string,
    role: string,
    dateOfBirth: Option<Date>)

  /** `Omit<User, 'id'>`: the fields a caller supplies to `addUser`. */
  datatype NewUser = NewUser(
    username: string,
    password: string,
    firstName: string,
    lastName: string,
    email: string,
    phone: string,
    role: string,
    dateOfBirth: Option<Date>)
  {
    /** `{ ...user, id }` */
    function WithId(id: int): (u: User)
      ensures u.id == id && u.username == username && u.password == password
      ensures u.firstName == firstName && u.lastName == lastName && u.email == email
      ensures u.phone == phone && u.role == role && u.dateOfBirth == dateOfBirth
    {
      User(id, username, password, firstName, lastName, email, phone, role, dateOfBirth)
    }
  }

  /** `Partial<User>`: None marks a field the caller did not supply. */
  datatype UserPatch = UserPatch(
    id: Option<int>,
    username: Option<string>,
    password: Option<string>,
    firstName: Option<string>,
    lastName: Option<string>,
    email: Option<string>,
    phone: Option<string>,
    role: Option<string>,
    dateOfBirth: Option<Option<Date>>)

  const NoChanges := UserPatch(None, None, None, None, None, None, None, None, None)

  /** `{ ...user, ...patch }`: supplied fields override, the others are kept. */
  function Merge(user: User, patch: UserPatch): (r: User)
    ensures patch == NoChanges ==> r == user
    ensures patch.id.Some? ==> r.id == patch.id.value
    ensures patch.id.None? ==> r.id == user.id
    ensures patch.username.Some? ==> r.username == patch.username.value
    ensures patch.username.None? ==> r.username == user.username
    ensures patch.password.Some? ==> r.password == patch.password.value
    ensures patch.password.None? ==> r.password == user.password
    ensures patch.role.Some? ==> r.role == patch.role.value
    ensures patch.role.None? ==> r.role == user.role
    ensures patch.firstName.Some? ==> r.firstName == patch.firstName.value
    ensures patch.firstName.None? ==> r.firstName == user.firstName
    ensures patch.lastName.Some? ==> r.lastName == patch.lastName.value
    ensures patch.lastName.None? ==> r.lastName == user.lastName
    ensures patch.email.Some? ==> r.email == patch.email.value
    ensures patch.email.None? ==> r.email == user.email
    ensures patch.phone.Some? ==> r.phone == patch.phone.value
    ensures patch.phone.None? ==> r.phone == user.phone
    ensures patch.dateOfBirth.Some? ==> r.dateOfBirth == patch.dateOfBirth.value
    ensures patch.dateOfBirth.None? ==> r.dateOfBirth == user.dateOfBirth
  {
    User(
      patch.id.GetOr(user.id),
      patch.username.GetOr(user.username),
      patch.password.GetOr(user.password),
      patch.firstName.GetOr(user.firstName),
      patch.lastName.GetOr(user.lastName),
      patch.email.GetOr(user.email),
      patch.phone.GetOr(user.phone),
      patch.role.GetOr(user.role),
      patch.dateOfBirth.GetOr(user.dateOfBirth))
  }

  /** Merging the same patch a second time changes nothing more. */
  lemma MergeIdempotent(user: User, patch: UserPatch)
    ensures Merge(Merge(user, patch), patch) == Merge(user, patch)
  {
  }

  /** `user => user.id === id` */
  function HasId(id: int): (p: User -> bool) {
    (u: User) => u.id == id
  }

  /** `user => user.id !== id` */
  function LacksId(id: int): (p: User -> bool) {
    (u: User) => u.id != id
  }

  /** `user => user.username === username` */
  function HasUsername(username: string): (p: User -> bool) {
    (u: User) => u.username == username
  }

  /** `u => u.username === username && u.password === password` */
  function HasCredentials(username: string, password: string): (p: User -> bool) {
    (u: User) => u.username == username && u.password == password
  }

  /** `user => ({ ...user, ...patch })` */
  function MergeWith(patch: UserPatch): (f: User -> User) {
    (u: User) => Merge(u, patch)
  }

  /** The two users seeded into an absent key. */
  const DefaultUsers: seq<User> := [
    User(1, "admin", "admin123", "Admin", "User", "admin@example.com",
         "1234567890", "Admin", Some(Date(631152000000))),    // 1990-01-01
    User(2, "manas", "manas123", "Manas", "Mehrotra", "manas.mehrotra@example.com",
         "9876543210", "Manager", Some(Date(484963200000)))   // 1985-05-15
  ]

  /**
   * `updateUser`'s effect on the list: only the first record with the id
   * takes the patch; with duplicate ids every later one is left as it was.
   */
  lemma {:induction false} UpdateTouchesFirstDuplicateOnly(users: seq<User>, id: int, patch: UserPatch, i: nat, j: nat)
    requires i < j < |users| && users[i].id == id && users[j].id == id
    ensures UpdateFirst(users, HasId(id), MergeWith(patch))[j] == users[j]
    ensures |Filter(users, LacksId(id))| + 2 <= |users|
    ensures forall u :: u in Filter(users, LacksId(id)) ==> u.id != id
  {
    assert HasId(id)(users[i]);
    FilterDropsBoth(users, LacksId(id), i, j);
    FilterMembers(users, LacksId(id));
  }

  /**
   * Submitting the same `updateUser` twice (the same form value, which keeps
   * the id) stores the same list as submitting it once.
   */
  lemma UpdateTwiceSameAsOnce(users: seq<User>, id: int, patch: UserPatch)
    requires patch.id.None? || patch.id == Some(id)
    ensures UpdateFirst(UpdateFirst(users, HasId(id), MergeWith(patch)), HasId(id), MergeWith(patch))
         == UpdateFirst(users, HasId(id), MergeWith(patch))
  {
  }

  /**
   * Two `addUser` calls in the same millisecond: the record added second is
   * shadowed, so looking the id up still yields the earlier record.
   */
  lemma AddWithTakenIdIsShadowed(users: seq<User>, fields: NewUser, id: int)
    requires exists i :: 0 <= i < |users| && users[i].id == id
    ensures Find(users + [fields.WithId(id)], HasId(id)) == Find(users, HasId(id))
  {
    var i :| 0 <= i < |users| && users[i].id == id;
    assert HasId(id)(users[i]);
    FindAfterAppend(users, fields.WithId(id), HasId(id));
  }

  /** With a fresh id, the added record is the one found by id. */
  lemma AddWithFreshIdIsFound(users: seq<User>, fields: NewUser, id: int)
    requires forall i :: 0 <= i < |users| ==> users[i].id != id
    ensures Find(users + [fields.WithId(id)], HasId(id)) == Some(fields.WithId(id))
  {
    assert forall i :: 0 <= i < |users| ==> !HasId(id)(users[i]);
    FindAfterAppend(users, fields.WithId(id), HasId(id));
  }

  /**
   * After deleting the id every record with these credentials carried,
   * the credentials no longer authenticate.
   */
  lemma DeletedUserCannotAuthenticate(users: seq<User>, id: int, username: string, password: string)
    requires forall i :: 0 <= i < |users| && users[i].username == username && users[i].password == password ==> users[i].id == id
    ensures Find(Filter(users, LacksId(id)), HasCredentials(username, password)) == None
  {
    var kept := Filter(users, LacksId(id));
    FilterMembers(users, LacksId(id));
    forall i | 0 <= i < |kept| ensures !HasCredentials(username, password)(kept[i]) {
      assert kept[i] in kept;
      assert multiset(kept)[kept[i]] > 0;
      assert kept[i] in users;
    }
  }

  /** `UserService`, with `localStorage['rbac_users']` as its `stored` field. */
  class UserService {
    /** `isPlatformBrowser(this.platformId)`, fixed for the service's lifetime. */
    const isBrowser: bool
    /** The list under 'rbac_users'; None when the key is absent. */
    var stored: Option<seq<User>>

    /** Injection: seeds the defaults in a browser when the key is absent. */
    constructor (isBrowser: bool, existing: Option<seq<User>>)
      ensures this.isBrowser == isBrowser
      ensures isBrowser && existing.None? ==> stored == Some(DefaultUsers)
      ensures !isBrowser || existing.Some? ==> stored == existing
    {
      this.isBrowser := isBrowser;
      stored := existing;
      new;
      if isBrowser {
        InitializeDefaultUsers();
      }
    }

    /** `initializeDefaultUsers`: writes the defaults only when the key is absent. */
    method InitializeDefaultUsers()
      modifies this
      ensures isBrowser && old(stored).None? ==> stored == Some(DefaultUsers)
      ensures !isBrowser || old(stored).Some? ==> stored == old(stored)
      ensures isBrowser ==> stored.Some?
    {
      if !isBrowser {
        return;
      }
      if stored.None? {
        stored := Some(DefaultUsers);
      }
    }

    /** `getUsers`: the stored list, or the empty list off-browser or when the key is absent. */
    function GetUsers(): (r: seq<User>)
      reads this
      ensures !isBrowser || stored.None? ==> r == []
      ensures isBrowser && stored.Some? ==> r == stored.value
    {
      if !isBrowser then []
      else match stored
        case None => []
        case Some(users) => users
    }

    /** `getUserById`: the first record with the id, or undefined. */
    function GetUserById(id: int): (r: Option<User>)
      reads this
      ensures r.None? <==> forall i :: 0 <= i < |GetUsers()| ==> GetUsers()[i].id != id
      ensures r.Some? ==> r.value.id == id
      ensures r.Some? ==> exists i :: 0 <= i < |GetUsers()| && GetUsers()[i] == r.value &&
                                      forall j :: 0 <= j < i ==> GetUsers()[j].id != id
    {
      Find(GetUsers(), HasId(id))
    }

    /** `addUser`: appends the record with id `now` (for `Date.now()`), or throws off-browser. */
    method AddUser(user: NewUser, now: int) returns (r: Result<User>)
      modifies this
      ensures isBrowser ==> r == Ok(user.WithId(now)) && stored == Some(old(GetUsers()) + [r.value])
      ensures !isBrowser ==> r == Err("Cannot add user on server side") && stored == old(stored)
    {
      if !isBrowser {
        return Err("Cannot add user on server side");
      }
      var users := GetUsers();
      var newUser := user.WithId(now);
      users := users + [newUser];
      stored := Some(users);
      r := Ok(newUser);
    }

    /**
     * `updateUser`: merges the patch into the first record with the id and
     * returns it; null, with storage untouched, when there is none.
     */
    method UpdateUser(id: int, userData: UserPatch) returns (r: Option<User>)
      modifies this
      ensures r.Some? <==> isBrowser && exists i :: 0 <= i < |old(GetUsers())| && old(GetUsers())[i].id == id
      ensures r.None? ==> stored == old(stored)
      ensures r.Some? ==> stored == Some(UpdateFirst(old(GetUsers()), HasId(id), MergeWith(userData)))
      ensures r.Some? ==> old(GetUserById(id)).Some? && r.value == Merge(old(GetUserById(id)).value, userData)
    {
      if !isBrowser {
        return None;
      }
      var users := GetUsers();
      var index := FindIndex(users, HasId(id));
      if index != -1 {
        users := users[index := Merge(users[index], userData)];
        stored := Some(users);
        return Some(users[index]);
      }
      return None;
    }

    /**
     * `deleteUser`: keeps exactly the records whose id differs; writes and
     * returns true only when that removed something.
     */
    method DeleteUser(id: int) returns (removed: bool)
      modifies this
      ensures removed <==> isBrowser && exists i :: 0 <= i < |old(GetUsers())| && old(GetUsers())[i].id == id
      ensures removed ==> stored == Some(Filter(old(GetUsers()), LacksId(id)))
      ensures !removed ==> stored == old(stored)
    {
      if !isBrowser {
        return false;
      }
      var users := GetUsers();
      var filteredUsers := Filter(users, LacksId(id));
      FilterShrinks(users, LacksId(id));
      if |filteredUsers| < |users| {
        stored := Some(filteredUsers);
        return true;
      }
      return false;
    }

    /** `clearAllUsers`: removes the key (in a browser). */
    method ClearAllUsers()
      modifies this
      ensures isBrowser ==> stored == None
      ensures !isBrowser ==> stored == old(stored)
    {
      if !isBrowser {
        return;
      }
      stored := None;
    }

    /** `authenticate`: the first user with both this username and this password, or null. */
    function Authenticate(username: string, password: string): (r: Option<User>)
      reads this
      ensures r.None? <==> forall i :: 0 <= i < |GetUsers()| ==>
        !(GetUsers()[i].username == username && GetUsers()[i].password == password)
      ensures r.Some? ==> r.value.username == username && r.value.password == password
      ensures r.Some? ==> exists i :: 0 <= i < |GetUsers()| && GetUsers()[i] == r.value &&
                                      forall j :: 0 <= j < i ==> !(GetUsers()[j].username == username && GetUsers()[j].password == password)
    {
      if !isBrowser then None else Find(GetUsers(), HasCredentials(username, password))
    }

    /** `getUserByUsername`: the first record with the username, or undefined. */
    function GetUserByUsername(username: string): (r: Option<User>)
      reads this
      ensures r.None? <==> forall i :: 0 <= i < |GetUsers()| ==> GetUsers()[i].username != username
      ensures r.Some? ==> r.value.username == username
      ensures r.Some? ==> exists i :: 0 <= i < |GetUsers()| && GetUsers()[i] == r.value &&
                                      forall j :: 0 <= j < i ==> GetUsers()[j].username != username
    {
      Find(GetUsers(), HasUsername(username))
    }
  }
}

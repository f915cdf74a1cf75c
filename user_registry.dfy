/** The user collection behind `UsersService` and `AuthService`:
    registering a user (409 when the username is taken, `['USER']` when no
    role is given) and the lookups by username and by id. The two services
    hold the same three operations word for word, so one class models both.
    The schema trims `username`, and the same setter applies to the value a
    query compares it with. */
module UserRegistry {
  import opened Wrappers
  import opened JsStrings

  type UserKey = string

  /** A stored user. `password` is the value the `pre('save')` hook wrote. */
  datatype User = User(id: UserKey, username: string, password: string, roles: seq<string>, isActive: bool)

  /** The collection in its natural order, which is the order `findOne`
      searches in. */
  type Users = seq<User>

  /** The roles given to a user that asks for none. */
  const DEFAULT_ROLES: seq<string> := ["USER"]

  /** `roles && roles.length > 0 ? roles : ['USER']`. */
  function RolesOrDefault(roles: Option<seq<string>>): (r: seq<string>)
    ensures |r| > 0
    ensures roles.Some? && |roles.value| > 0 ==> r == roles.value
    ensures roles.None? || roles.value == [] ==> r == DEFAULT_ROLES
  {
    if roles.Some? && |roles.value| > 0 then roles.value else DEFAULT_ROLES
  }

  /** The position of the first user with the username. */
  function FirstWithUsername(users: Users, name: string): (r: Option<nat>)
    ensures r.Some? ==> r.value < |users| && users[r.value].username == name
    ensures r.Some? ==> forall j :: 0 <= j < r.value ==> users[j].username != name
    ensures r.None? <==> forall j :: 0 <= j < |users| ==> users[j].username != name
  {
    if |users| == 0 then None
    else if users[0].username == name then Some(0)
    else match FirstWithUsername(users[1..], name)
      case None => None
      case Some(k) => Some(k + 1)
  }

  /** The position of the first user with the id. */
  function FirstWithId(users: Users, id: UserKey): (r: Option<nat>)
    ensures r.Some? ==> r.value < |users| && users[r.value].id == id
    ensures r.Some? ==> forall j :: 0 <= j < r.value ==> users[j].id != id
    ensures r.None? <==> forall j :: 0 <= j < |users| ==> users[j].id != id
  {
    if |users| == 0 then None
    else if users[0].id == id then Some(0)
    else match FirstWithId(users[1..], id)
      case None => None
      case Some(k) => Some(k + 1)
  }

  /** `findOne({ username })`: the first user whose stored username is the
      trimmed query value, or `null`. */
  function FindByUsername(users: Users, username: string): (r: Option<User>)
    ensures r.Some? <==> exists j :: 0 <= j < |users| && users[j].username == Trim(username)
    ensures r.Some? ==> r.value in users && r.value.username == Trim(username)
  {
    match FirstWithUsername(users, Trim(username))
    case None => None
    case Some(k) => Some(users[k])
  }

  /** `findById(userId)`: a string that is not an ObjectId fails the cast
      (500); otherwise the user with the id, or `null`. */
  function FindById(users: Users, isValidId: string -> bool, id: UserKey): (r: Result<Option<User>, HttpError>)
    ensures !isValidId(id) ==> r == Failure(InternalServerError)
    ensures isValidId(id) ==> r.Success?
    ensures r.Success? ==> (r.value.Some? <==> exists j :: 0 <= j < |users| && users[j].id == id)
    ensures r.Success? && r.value.Some? ==> r.value.value in users && r.value.value.id == id
  {
    if !isValidId(id) then Failure(InternalServerError)
    else match FirstWithId(users, id)
      case None => Success(None)
      case Some(k) => Success(Some(users[k]))
  }

  /** The fields `create` reads from its argument. */
  datatype Registration = Registration(username: string, password: string, roles: Option<seq<string>>)

  /** `create`: a taken username is refused with 409 before anything is
      written; the new user is active, has the trimmed username and the roles
      asked for or `['USER']`. The save's required validators run on the
      trimmed username and the plain password, and an id already stored is a
      duplicate-key error; neither is caught, so both give 500. `hashed` is
      the value the hook stores for the password (bcrypt with a random salt)
      and `newId` the ObjectId of the new document. */
  function CreateUser(users: Users, reg: Registration, newId: UserKey, hashed: string): (r: Result<User, HttpError>)
    ensures FindByUsername(users, reg.username).Some? <==> r == Failure(Conflict)
    ensures r.Failure? && r.error != Conflict ==> r.error == InternalServerError
    ensures r.Success? ==>
              && r.value.id == newId && r.value.username == Trim(reg.username) && r.value.username != ""
              && r.value.password == hashed && r.value.isActive
              && r.value.roles == RolesOrDefault(reg.roles)
              && FirstWithId(users, newId).None?
  {
    if FindByUsername(users, reg.username).Some? then Failure(Conflict)
    else
      var name := Trim(reg.username);
      if name == "" || reg.password == "" then Failure(InternalServerError)
      else if FirstWithId(users, newId).Some? then Failure(InternalServerError)
      else Success(User(newId, name, hashed, RolesOrDefault(reg.roles), true))
  }

  /** No two users share a username, nor an id. */
  predicate UniqueUsers(users: Users) {
    && (forall i, j :: 0 <= i < j < |users| ==> users[i].username != users[j].username)
    && (forall i, j :: 0 <= i < j < |users| ==> users[i].id != users[j].id)
  }

  /** A user whose username and id are new is found at the end. */
  lemma {:induction false} FindAppended(users: Users, u: User)
    requires forall j :: 0 <= j < |users| ==> users[j].username != u.username && users[j].id != u.id
    ensures FirstWithUsername(users + [u], u.username) == Some(|users|)
    ensures FirstWithId(users + [u], u.id) == Some(|users|)
  {
    if |users| > 0 {
      assert (users + [u])[1..] == users[1..] + [u];
      FindAppended(users[1..], u);
    }
  }

  /** Appending a user whose username and id are new keeps both unique. */
  lemma AppendKeepsUnique(users: Users, u: User)
    requires UniqueUsers(users)
    requires forall j :: 0 <= j < |users| ==> users[j].username != u.username && users[j].id != u.id
    ensures UniqueUsers(users + [u])
  {
    var after := users + [u];
    forall i, j | 0 <= i < j < |after|
      ensures after[i].username != after[j].username && after[i].id != after[j].id
    {
      if j == |users| {
        assert after[j] == u && after[i] == users[i];
      } else {
        assert after[i] == users[i] && after[j] == users[j];
      }
    }
  }

  /** A registration keeps usernames and ids unique, and afterwards both
      lookups find the new user. */
  lemma CreateKeepsUsersUnique(users: Users, reg: Registration, newId: UserKey, hashed: string,
                               isValidId: string -> bool)
    requires UniqueUsers(users)
    requires CreateUser(users, reg, newId, hashed).Success?
    ensures var u := CreateUser(users, reg, newId, hashed).value;
            && UniqueUsers(users + [u])
            && FindByUsername(users + [u], reg.username) == Some(u)
            && (isValidId(newId) ==> FindById(users + [u], isValidId, newId) == Success(Some(u)))
  {
    var u := CreateUser(users, reg, newId, hashed).value;
    assert forall j :: 0 <= j < |users| ==> users[j].username != u.username && users[j].id != u.id;
    FindAppended(users, u);
    AppendKeepsUnique(users, u);
    assert (users + [u])[|users|] == u;
  }

  /** Registering the same (trimmed) username a second time is refused with
      409, whatever id and password hash the second attempt would get. */
  lemma RegisterTwiceConflicts(users: Users, reg: Registration, newId: UserKey, hashed: string,
                               again: Registration, id: UserKey, h: string)
    requires CreateUser(users, reg, newId, hashed).Success?
    requires Trim(again.username) == Trim(reg.username)
    ensures CreateUser(users + [CreateUser(users, reg, newId, hashed).value], again, id, h) == Failure(Conflict)
  {
    var u := CreateUser(users, reg, newId, hashed).value;
    assert (users + [u])[|users|] == u;
  }

  class UsersService {
    var users: Users

    ghost predicate Valid()
      reads this
    {
      UniqueUsers(users)
    }

    constructor(initial: Users)
      requires UniqueUsers(initial)
      ensures users == initial && Valid()
    {
      users := initial;
    }

    /** `create`. */
    method Create(reg: Registration, newId: UserKey, hashed: string) returns (r: Result<User, HttpError>)
      requires Valid()
      modifies this
      ensures Valid()
      ensures r == CreateUser(old(users), reg, newId, hashed)
      ensures users == if r.Success? then old(users) + [r.value] else old(users)
    {
      var existing := FindOneByUsername(reg.username);
      if existing.Some? {
        return Failure(Conflict);
      }
      var name := Trim(reg.username);
      if name == "" || reg.password == "" || FirstWithId(users, newId).Some? {
        return Failure(InternalServerError);
      }
      var u := User(newId, name, hashed, RolesOrDefault(reg.roles), true);
      CreateKeepsUsersUnique(users, reg, newId, hashed, _ => true);
      users := users + [u];
      r := Success(u);
    }

    /** `findOneByUsername`. */
    method FindOneByUsername(username: string) returns (r: Option<User>)
      ensures r == FindByUsername(users, username)
    {
      var k := FirstWithUsername(users, Trim(username));
      if k.None? {
        return None;
      }
      r := Some(users[k.value]);
    }

    /** `findOneById`. */
    method FindOneById(isValidId: string -> bool, id: UserKey) returns (r: Result<Option<User>, HttpError>)
      ensures r == FindById(users, isValidId, id)
    {
      if !isValidId(id) {
        return Failure(InternalServerError);
      }
      var k := FirstWithId(users, id);
      if k.None? {
        return Success(None);
      }
      r := Success(Some(users[k.value]));
    }
  }
}

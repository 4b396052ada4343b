/** The custom account model of the `user` app: the record, its role
    column, the derived `is_admin` / `is_moderator` flags, and the user
    table with the uniqueness the database keeps. */
module Users {
  import opened Wrappers

  /** The three choices of the `role` column. */
  datatype Role = UserRole | ModeratorRole | AdminRole

  /** The `role` column's default choice. */
  const DefaultRole: Role := UserRole

  const EmailMaxLength: nat := 254
  const BioMaxLength: nat := 500
  const RoleMaxLength: nat := 16
  /** The length limit of `username`, inherited from the framework's base user model. */
  const UsernameMaxLength: nat := 150

  /** The string stored in the `role` column for each choice. */
  function RoleValue(role: Role): (s: string)
    ensures 0 < |s| <= RoleMaxLength
  {
    match role
    case UserRole => "user"
    case ModeratorRole => "moderator"
    case AdminRole => "admin"
  }

  /** Reads a submitted role string; anything that is not one of the choices is refused. */
  function ParseRole(s: string): (r: Option<Role>)
    ensures r.Some? ==> RoleValue(r.value) == s
    ensures r.None? ==> forall role: Role :: RoleValue(role) != s
  {
    if s == "user" then Some(UserRole)
    else if s == "moderator" then Some(ModeratorRole)
    else if s == "admin" then Some(AdminRole)
    else None
  }

  lemma RoleRoundTrip(role: Role)
    ensures ParseRole(RoleValue(role)) == Some(role)
  {
  }

  datatype User = User(
    id: nat,
    username: string,
    email: string,
    firstName: string,
    lastName: string,
    bio: string,
    role: Role,
    isSuperuser: bool)

  /** `is_admin`: the stored role is "admin", or the account is a superuser. */
  function IsAdmin(u: User): (admin: bool)
    ensures admin <==> u.role == AdminRole || u.isSuperuser
  {
    RoleValue(u.role) == "admin" || u.isSuperuser
  }

  /** `is_moderator`: the stored role is "moderator"; the superuser flag plays no part. */
  function IsModerator(u: User): (moderator: bool)
    ensures moderator <==> u.role == ModeratorRole
  {
    RoleValue(u.role) == "moderator"
  }

  lemma SuperuserIsAdmin(u: User)
    requires u.isSuperuser
    ensures IsAdmin(u)
  {
  }

  lemma ModeratorIgnoresSuperuser(u: User, flag: bool)
    ensures IsModerator(u.(isSuperuser := flag)) == IsModerator(u)
  {
  }

  /** The roles exclude each other: an "admin" row is never a moderator. */
  lemma AdminRoleIsNotModerator(u: User)
    requires u.role == AdminRole
    ensures IsAdmin(u) && !IsModerator(u)
  {
  }

  /** A superuser whose role column says "moderator" is both at once. */
  lemma SuperuserModeratorIsBoth(u: User)
    requires u.isSuperuser && u.role == ModeratorRole
    ensures IsAdmin(u) && IsModerator(u)
  {
  }

  /** A row as the ORM creates it from an e-mail and a username: every
      other column takes its default. */
  function NewUser(id: nat, username: string, email: string): (u: User)
    ensures u.id == id && u.username == username && u.email == email
    ensures u.bio == "" && u.role == DefaultRole && !u.isSuperuser
    ensures !IsAdmin(u) && !IsModerator(u)
  {
    User(id, username, email, "", "", "", DefaultRole, false)
  }

  /** A corollary of the contract of `NewUser`, naming the default role:
      a signed-up account starts as a plain user. */
  lemma NewUserIsUnprivileged(id: nat, username: string, email: string)
    ensures var u := NewUser(id, username, email);
      u.role == UserRole && !IsAdmin(u) && !IsModerator(u)
  {
  }

  /** `User.objects.filter(email=...).exists()`, as a scan of the rows. */
  function EmailTaken(rows: seq<User>, email: string): (taken: bool)
    ensures taken <==> exists u :: u in rows && u.email == email
  {
    if rows == [] then false
    else rows[0].email == email || EmailTaken(rows[1..], email)
  }

  /** `User.objects.filter(username=...).exists()`, as a scan of the rows. */
  function UsernameTaken(rows: seq<User>, username: string): (taken: bool)
    ensures taken <==> exists u :: u in rows && u.username == username
  {
    if rows == [] then false
    else rows[0].username == username || UsernameTaken(rows[1..], username)
  }

  /** The unique columns of the table: the key, `email` (declared unique
      on the model) and `username` (unique on the framework's base model). */
  predicate UniqueKeys(rows: seq<User>)
  {
    forall i, j :: 0 <= i < j < |rows| ==>
      rows[i].id != rows[j].id && rows[i].email != rows[j].email && rows[i].username != rows[j].username
  }

  /** The declared column lengths, which the serializers enforce on every write. */
  predicate WithinFieldLimits(rows: seq<User>)
  {
    forall u :: u in rows ==>
      |u.email| <= EmailMaxLength && |u.bio| <= BioMaxLength && |u.username| <= UsernameMaxLength
  }

  /** `get_object_or_404(User, username=...)`: the row with that username, if any. */
  function FindByUsername(rows: seq<User>, username: string): (r: Option<User>)
    ensures r.Some? ==> r.value in rows && r.value.username == username
    ensures r.None? <==> !UsernameTaken(rows, username)
  {
    if rows == [] then None
    else if rows[0].username == username then Some(rows[0])
    else FindByUsername(rows[1..], username)
  }

  /** The lookup half of `get_or_create(email=..., username=...)`. */
  function FindByEmailAndUsername(rows: seq<User>, email: string, username: string): (r: Option<User>)
    ensures r.Some? ==> r.value in rows && r.value.email == email && r.value.username == username
    ensures r.None? ==> forall u :: u in rows ==> !(u.email == email && u.username == username)
  {
    if rows == [] then None
    else if rows[0].email == email && rows[0].username == username then Some(rows[0])
    else FindByEmailAndUsername(rows[1..], email, username)
  }

  /** Position of a stored row. */
  function IndexOf(rows: seq<User>, u: User): (k: nat)
    requires u in rows
    ensures k < |rows| && rows[k] == u
  {
    if rows[0] == u then 0 else 1 + IndexOf(rows[1..], u)
  }

  /** Whether writing `u` at position `k` would repeat another row's e-mail or username. */
  predicate ClashesWithOthers(rows: seq<User>, k: nat, u: User)
  {
    exists i :: 0 <= i < |rows| && i != k && (rows[i].email == u.email || rows[i].username == u.username)
  }

  /** The database's refusal of a row that breaks a unique column. */
  datatype IntegrityError = IntegrityError

  lemma AppendKeepsUniqueKeys(rows: seq<User>, u: User)
    requires UniqueKeys(rows)
    requires forall v :: v in rows ==> v.id != u.id
    requires !EmailTaken(rows, u.email) && !UsernameTaken(rows, u.username)
    ensures UniqueKeys(rows + [u])
  {
  }

  /** The user table. */
  class UserTable {
    var rows: seq<User>
    /** The key the next inserted row receives. */
    var nextId: nat

    ghost predicate Valid()
      reads this
    {
      UniqueKeys(rows) && forall u :: u in rows ==> u.id < nextId
    }

    constructor ()
      ensures Valid() && rows == [] && nextId == 1
    {
      rows := [];
      nextId := 1;
    }

    /** `User.objects.get_or_create(email=email, username=username)`: the
        row matching both columns if there is one; otherwise a new row with
        defaults everywhere else, unless the new row would repeat an e-mail
        or a username, which the database refuses. */
    method GetOrCreate(email: string, username: string) returns (r: Result<(User, bool), IntegrityError>)
      requires Valid()
      modifies this
      ensures Valid()
      ensures var found := FindByEmailAndUsername(old(rows), email, username);
        found.Some? ==> r == Ok((found.value, false)) && rows == old(rows) && nextId == old(nextId)
      ensures var found := FindByEmailAndUsername(old(rows), email, username);
        found.None? && (EmailTaken(old(rows), email) || UsernameTaken(old(rows), username)) ==>
          r.Err? && rows == old(rows) && nextId == old(nextId)
      ensures !EmailTaken(old(rows), email) && !UsernameTaken(old(rows), username) ==>
        var u := NewUser(old(nextId), username, email);
        r == Ok((u, true)) && rows == old(rows) + [u] && nextId == old(nextId) + 1
    {
      var found := FindByEmailAndUsername(rows, email, username);
      if found.Some? {
        return Ok((found.value, false));
      }
      if EmailTaken(rows, email) || UsernameTaken(rows, username) {
        return Err(IntegrityError);
      }
      var u := NewUser(nextId, username, email);
      AppendKeepsUniqueKeys(rows, u);
      rows := rows + [u];
      nextId := nextId + 1;
      return Ok((u, true));
    }

    /** `instance.save()` for a row loaded from position `k`: it overwrites
        that row, unless the new values repeat another row's unique column. */
    method Save(k: nat, u: User) returns (r: Result<User, IntegrityError>)
      requires Valid() && k < |rows| && rows[k].id == u.id
      modifies this
      ensures Valid() && nextId == old(nextId)
      ensures r.Err? <==> ClashesWithOthers(old(rows), k, u)
      ensures r.Ok? ==> r.value == u && rows == old(rows)[k := u]
      ensures r.Err? ==> rows == old(rows)
    {
      if ClashesWithOthers(rows, k, u) {
        return Err(IntegrityError);
      }
      assert rows[k] in rows;
      ghost var before := rows;
      rows := rows[k := u];
      forall i, j | 0 <= i < j < |rows|
        ensures rows[i].id != rows[j].id && rows[i].email != rows[j].email
          && rows[i].username != rows[j].username
      {
      }
      forall v | v in rows ensures v.id < nextId {
        var i :| 0 <= i < |rows| && rows[i] == v;
        assert before[i] in before;
      }
      return Ok(u);
    }
  }
}

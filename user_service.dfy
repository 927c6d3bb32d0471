/**
 * Registration, the failed-attempt counter and the super-admin seed
 * (`auth/services/user_service.py`). The password hasher is a parameter.
 */
module UserService {
  import opened Common
  import opened UsersDb

  /** Failed attempts at which `update_user_failed_attempts` sets `is_locked`. */
  const LockThreshold: int := 5

  const EmailTaken := "Email already registered."
  const UsernameTaken := "Username already registered."

  /** `get_password_hash(plain)`. */
  type HashPassword = string -> string

  /** A `UserRegistration` body; `role` is the id of a row of `roles`. */
  datatype Registration = Registration(username: string, email: string, fullName: string, password: string, role: nat)

  /** The outcome of a registration and the users it commits. */
  datatype Registered = Registered(result: Result<User>, users: seq<User>)

  /** The row `create_new_user` inserts: column defaults, and the role only when it names a row of `roles`. */
  function NewUser(id: nat, reg: Registration, roles: set<nat>, hash: HashPassword): User {
    User(id, reg.username, reg.email, reg.fullName, hash(reg.password), true,
         if reg.role in roles then RoleId(reg.role) else NoRole,
         0, false, None, None, None)
  }

  /** `create_new_user` as a function of the users before the call; `nextId` is the id the insert draws. */
  function Register(users: seq<User>, nextId: nat, roles: set<nat>, reg: Registration, hash: HashPassword): Registered
  {
    if GetUserByEmail(users, reg.email).Some? then Registered(HttpError(409, EmailTaken), users)
    else if GetUserByUsername(users, reg.username).Some? then Registered(HttpError(409, UsernameTaken), users)
    else
      var u := NewUser(nextId, reg, roles, hash);
      Registered(Ok(u), users + [u])
  }

  /**
   * A taken email is reported before a taken username, both as 409 and
   * without an insert; otherwise exactly one user is appended, with the
   * registration's names, an active account, a zero counter and no lock, and
   * it is then the user both lookups find.
   */
  lemma RegisterSpec(users: seq<User>, nextId: nat, roles: set<nat>, reg: Registration, hash: HashPassword)
    ensures var r := Register(users, nextId, roles, reg, hash);
      var emailTaken := exists j :: 0 <= j < |users| && users[j].email == reg.email;
      var nameTaken := exists j :: 0 <= j < |users| && users[j].username == reg.username;
      (r.result == HttpError(409, EmailTaken) <==> emailTaken)
      && (r.result == HttpError(409, UsernameTaken) <==> !emailTaken && nameTaken)
      && (r.result.HttpError? ==> r.users == users)
      && (r.result.Ok? <==> !emailTaken && !nameTaken)
      && (r.result.Ok? ==>
            var u := r.result.value;
            r.users == users + [u] && u.id == nextId
            && u.username == reg.username && u.email == reg.email && u.hashedPassword == hash(reg.password)
            && u.isActive && !u.isLocked && u.failedLoginAttempts == 0
            && GetUserByEmail(r.users, reg.email) == Some(|users|)
            && GetUserByUsername(r.users, reg.username) == Some(|users|))
  {
    var r := Register(users, nextId, roles, reg, hash);
    if r.result.Ok? {
      var u := r.result.value;
      var e := GetUserByEmail(r.users, reg.email);
      assert r.users[|users|] == u;
      assert e.Some? && e.value == |users|;
      var n := GetUserByUsername(r.users, reg.username);
      assert n.Some? && n.value == |users|;
    }
  }

  /** The user after `update_user_failed_attempts(user, increment)`. */
  function AttemptsUpdated(u: User, increment: bool): User {
    var attempts := if increment then u.failedLoginAttempts + 1 else 0;
    u.(failedLoginAttempts := attempts, isLocked := u.isLocked || attempts >= LockThreshold)
  }

  /**
   * Incrementing adds one and resetting sets zero; afterwards five or more
   * attempts means locked, the flag is never cleared (not even by a reset),
   * and nothing else about the user changes.
   */
  lemma AttemptsUpdatedSpec(u: User, increment: bool)
    ensures var v := AttemptsUpdated(u, increment);
      v.failedLoginAttempts == (if increment then u.failedLoginAttempts + 1 else 0)
      && (v.failedLoginAttempts >= 5 ==> v.isLocked)
      && (u.isLocked ==> v.isLocked)
      && (v.isLocked <==> u.isLocked || v.failedLoginAttempts >= 5)
      && v.(failedLoginAttempts := u.failedLoginAttempts, isLocked := u.isLocked) == u
  {
  }

  /** The user after `n` increments. */
  function Increments(u: User, n: nat): User
    decreases n
  {
    if n == 0 then u else AttemptsUpdated(Increments(u, n - 1), true)
  }

  /** A fresh account (no attempts, unlocked) is locked by exactly its fifth consecutive increment. */
  lemma {:induction false} FifthIncrementLocks(u: User, n: nat)
    requires u.failedLoginAttempts == 0 && !u.isLocked
    ensures Increments(u, n).failedLoginAttempts == n
    ensures Increments(u, n).isLocked <==> n >= 5
    decreases n
  {
    if n > 0 {
      FifthIncrementLocks(u, n - 1);
    }
  }

  /** `create_super_admin` as a function of the users before the call. */
  function SuperAdmin(users: seq<User>, nextId: nat, username: string, email: string, password: string,
                      hash: HashPassword): seq<User>
  {
    if GetUserByEmail(users, email).Some? then users
    else users + [User(nextId, username, email, "Admin", hash(password), true, RoleName("Owner"),
                       0, false, None, None, None)]
  }

  /**
   * An existing email makes it a no-op; otherwise exactly one active user
   * with that email and username is appended, and seeding again with the
   * same email then changes nothing.
   */
  lemma SuperAdminSpec(users: seq<User>, nextId: nat, username: string, email: string, password: string,
                       hash: HashPassword, nextId': nat, username': string, password': string)
    ensures var r := SuperAdmin(users, nextId, username, email, password, hash);
      ((exists j :: 0 <= j < |users| && users[j].email == email) ==> r == users)
      && ((forall j :: 0 <= j < |users| ==> users[j].email != email) ==>
            |r| == |users| + 1 && r[..|users|] == users
            && r[|users|].email == email && r[|users|].username == username && r[|users|].isActive
            && r[|users|].hashedPassword == hash(password))
      && SuperAdmin(r, nextId', username', email, password', hash) == r
  {
    var r := SuperAdmin(users, nextId, username, email, password, hash);
    if GetUserByEmail(users, email).None? {
      assert r[..|users|] == users;
      assert r[|users|].email == email;
    }
  }

  /** `create_new_user`, committed to `db`. */
  method CreateNewUser(db: Users, reg: Registration, hash: HashPassword) returns (r: Result<User>)
    requires db.Valid()
    modifies db
    ensures db.Valid()
    ensures var s := Register(old(db.users), old(db.nextId), old(db.roles), reg, hash);
      r == s.result && db.users == s.users
    ensures db.nextId == if r.Ok? then old(db.nextId) + 1 else old(db.nextId)
    ensures db.audits == old(db.audits) && db.roles == old(db.roles)
  {
    if GetUserByEmail(db.users, reg.email).Some? {
      return HttpError(409, EmailTaken);
    }
    if GetUserByUsername(db.users, reg.username).Some? {
      return HttpError(409, UsernameTaken);
    }
    var hashed := hash(reg.password);
    var role := if reg.role in db.roles then RoleId(reg.role) else NoRole;
    var user := User(db.nextId, reg.username, reg.email, reg.fullName, hashed, true, role, 0, false, None, None, None);
    db.users := db.users + [user];
    db.nextId := db.nextId + 1;
    r := Ok(user);
  }

  /** `update_user_failed_attempts` on the user at index `i`, committed to `db`. */
  method UpdateUserFailedAttempts(db: Users, i: nat, increment: bool)
    requires db.Valid() && i < |db.users|
    modifies db
    ensures db.Valid()
    ensures db.users == old(db.users)[i := AttemptsUpdated(old(db.users)[i], increment)]
    ensures db.audits == old(db.audits) && db.roles == old(db.roles) && db.nextId == old(db.nextId)
  {
    var user := db.users[i];
    if increment {
      user := user.(failedLoginAttempts := user.failedLoginAttempts + 1);
    } else {
      user := user.(failedLoginAttempts := 0);
    }
    if user.failedLoginAttempts >= LockThreshold {
      user := user.(isLocked := true);
    }
    db.users := db.users[i := user];
  }

  /** `create_super_admin`, committed to `db`. */
  method CreateSuperAdmin(db: Users, username: string, email: string, password: string, hash: HashPassword)
    requires db.Valid()
    modifies db
    ensures db.Valid()
    ensures db.users == SuperAdmin(old(db.users), old(db.nextId), username, email, password, hash)
    ensures db.nextId == if |db.users| > |old(db.users)| then old(db.nextId) + 1 else old(db.nextId)
    ensures db.audits == old(db.audits) && db.roles == old(db.roles)
  {
    if GetUserByEmail(db.users, email).None? {
      var hashed := hash(password);
      var admin := User(db.nextId, username, email, "Admin", hashed, true, RoleName("Owner"), 0, false, None, None, None);
      db.users := db.users + [admin];
      db.nextId := db.nextId + 1;
    }
  }
}

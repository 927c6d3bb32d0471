/**
 * The `users` and `login_audits` tables shared by the authentication and
 * user services, and the lookups those services make. Times are whole
 * seconds since the epoch, in UTC.
 */
module UsersDb {
  import opened Common

  /** The role a user row refers to: a row of `roles` by id, a bare role name, or none. */
  datatype RoleRef = RoleId(id: nat) | RoleName(name: string) | NoRole

  /** A row of `users`. */
  datatype User = User(
    id: nat,
    username: string,
    email: string,
    fullName: string,
    hashedPassword: string,
    isActive: bool,
    role: RoleRef,
    failedLoginAttempts: int,
    isLocked: bool,
    lockoutUntil: Option<int>,
    resetToken: Option<string>,
    resetTokenExpiry: Option<int>)

  /** A row of `login_audits`. */
  datatype LoginAudit = LoginAudit(userId: Option<nat>, isSuccessful: bool, ipAddress: string)

  /** `query(User).filter(...).first()`: the index of the first row `p` accepts. */
  function FirstWhere(users: seq<User>, p: User -> bool): (r: Option<nat>)
    ensures r.Some? ==> r.value < |users| && p(users[r.value])
    ensures r.Some? ==> forall j :: 0 <= j < r.value ==> !p(users[j])
    ensures r.None? <==> forall j :: 0 <= j < |users| ==> !p(users[j])
    decreases |users|
  {
    if users == [] then None
    else if p(users[0]) then Some(0)
    else
      var rest := FirstWhere(users[1..], p);
      assert forall j :: 1 <= j < |users| ==> users[j] == users[1..][j - 1];
      match rest
      case None => None
      case Some(k) => Some(k + 1)
  }

  /** `get_user_by_email`: the first user whose email is exactly `email`, or none. */
  function GetUserByEmail(users: seq<User>, email: string): (r: Option<nat>)
    ensures r.Some? ==> r.value < |users| && users[r.value].email == email
    ensures r.Some? ==> forall j :: 0 <= j < r.value ==> users[j].email != email
    ensures r.None? <==> forall j :: 0 <= j < |users| ==> users[j].email != email
  {
    FirstWhere(users, (u: User) => u.email == email)
  }

  /** `get_user_by_username`: the first user whose username is exactly `username`, or none. */
  function GetUserByUsername(users: seq<User>, username: string): (r: Option<nat>)
    ensures r.Some? ==> r.value < |users| && users[r.value].username == username
    ensures r.Some? ==> forall j :: 0 <= j < r.value ==> users[j].username != username
    ensures r.None? <==> forall j :: 0 <= j < |users| ==> users[j].username != username
  {
    FirstWhere(users, (u: User) => u.username == username)
  }

  /** The first user holding the reset token `token`; users without a token never match. */
  function GetUserByResetToken(users: seq<User>, token: string): (r: Option<nat>)
    ensures r.Some? ==> r.value < |users| && users[r.value].resetToken == Some(token)
    ensures r.Some? ==> forall j :: 0 <= j < r.value ==> users[j].resetToken != Some(token)
    ensures r.None? <==> forall j :: 0 <= j < |users| ==> users[j].resetToken != Some(token)
  {
    FirstWhere(users, (u: User) => u.resetToken == Some(token))
  }

  /** The tables as the services' session sees them after each commit. */
  class Users {
    var users: seq<User>
    var audits: seq<LoginAudit>
    /** Ids of the rows of `roles`. */
    var roles: set<nat>
    /** The next value of the `users.id` sequence. */
    var nextId: nat

    predicate Valid()
      reads this
    {
      forall j :: 0 <= j < |users| ==> users[j].id < nextId
    }

    constructor(roles: set<nat>)
      ensures Valid()
      ensures users == [] && audits == [] && this.roles == roles && nextId == 1
    {
      users := [];
      audits := [];
      this.roles := roles;
      nextId := 1;
    }
  }
}

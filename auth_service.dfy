/**
 * Login, password change and password reset (`auth_service.py`).
 *
 * bcrypt's `checkpw`, the password hasher and the random reset token are
 * parameters; JWT encoding is left out, so a successful login yields the
 * subject (`sub`) its tokens would carry. `now` is `datetime.utcnow()` in
 * whole seconds.
 */
module AuthService {
  import opened Common
  import opened UsersDb

  /** Failed attempts at which the wrong-password path starts writing `lockout_until`. */
  const LockoutThreshold: int := 5
  /** The 15-minute lockout window. */
  const LockoutSeconds: int := 15 * 60
  /** A reset token is valid for one hour. */
  const ResetTokenSeconds: int := 60 * 60
  const MinPasswordLength: nat := 8

  const LoginRefused := "Incorrect username or password, or account is locked."
  const InvalidResetToken := "Invalid or expired reset token."
  const PasswordTooShort := "New password must be at least 8 characters."

  /** `bcrypt.checkpw(plain, hashed)`. */
  type CheckPassword = (string, string) -> bool
  /** `get_password_hash(plain)`. */
  type HashPassword = string -> string

  /**
   * How a login attempt ends: tokens for `subject`, a 401, or the TypeError
   * Python raises comparing a missing `lockout_until` with the clock.
   */
  datatype LoginOutcome = TokenIssued(subject: string) | Unauthorized | ComparisonRaised

  /** The outcome of a login attempt and the tables it commits. */
  datatype LoginStep = LoginStep(outcome: LoginOutcome, users: seq<User>, audits: seq<LoginAudit>)

  /** The outcome of a password change or reset and the users it commits. */
  datatype Update = Update(result: Result<()>, users: seq<User>)

  /**
   * The lock test `user.is_locked and user.lockout_until > now`: None when
   * the comparison raises because a locked user has no `lockout_until`.
   */
  function LockedOut(u: User, now: int): (r: Option<bool>)
    ensures r == Some(true) <==> u.isLocked && u.lockoutUntil.Some? && u.lockoutUntil.value > now
    ensures r.None? <==> u.isLocked && u.lockoutUntil.None?
  {
    if !u.isLocked then Some(false)
    else match u.lockoutUntil
      case None => None
      case Some(t) => Some(t > now)
  }

  /** A user after a wrong password: one more failed attempt, and a lockout time once the threshold is reached. */
  function AfterWrongPassword(u: User, now: int): User {
    var attempts := u.failedLoginAttempts + 1;
    u.(failedLoginAttempts := attempts,
       lockoutUntil := if attempts >= LockoutThreshold then Some(now + LockoutSeconds) else u.lockoutUntil)
  }

  /** A user after a successful login: counter and lockout cleared. */
  function AfterSuccess(u: User): User {
    u.(failedLoginAttempts := 0, lockoutUntil := None)
  }

  /** `handle_user_login` as a function of the tables before the attempt. */
  function Login(users: seq<User>, audits: seq<LoginAudit>, username: string, password: string,
                 ip: string, now: int, checkpw: CheckPassword): LoginStep
  {
    match GetUserByUsername(users, username)
    case None => LoginStep(Unauthorized, users, audits + [LoginAudit(None, false, ip)])
    case Some(i) =>
      var u := users[i];
      match LockedOut(u, now)
      case None => LoginStep(ComparisonRaised, users, audits)
      case Some(true) => LoginStep(Unauthorized, users, audits + [LoginAudit(Some(u.id), false, ip)])
      case Some(false) =>
        if !checkpw(password, u.hashedPassword) then
          LoginStep(Unauthorized, users[i := AfterWrongPassword(u, now)], audits + [LoginAudit(Some(u.id), false, ip)])
        else
          LoginStep(TokenIssued(u.username), users[i := AfterSuccess(u)], audits + [LoginAudit(Some(u.id), true, ip)])
  }

  /**
   * Every attempt that does not raise appends exactly one audit row, which
   * names the user when there is one and is successful iff tokens are issued;
   * an attempt that raises commits nothing.
   */
  lemma LoginAuditsOnce(users: seq<User>, audits: seq<LoginAudit>, username: string, password: string,
                        ip: string, now: int, checkpw: CheckPassword)
    ensures var s := Login(users, audits, username, password, ip, now, checkpw);
      if s.outcome.ComparisonRaised? then s.users == users && s.audits == audits
      else
        |s.audits| == |audits| + 1 && s.audits[..|audits|] == audits
        && s.audits[|audits|].ipAddress == ip
        && (s.audits[|audits|].isSuccessful <==> s.outcome.TokenIssued?)
        && s.audits[|audits|].userId == (match GetUserByUsername(users, username)
                                          case None => None
                                          case Some(i) => Some(users[i].id))
  {
    var s := Login(users, audits, username, password, ip, now, checkpw);
    if !s.outcome.ComparisonRaised? {
      assert s.audits[..|audits|] == audits;
    }
  }

  /** An unknown user, or one locked until after `now`, gets 401 and no row of `users` changes. */
  lemma LoginRefusedChangesNoUser(users: seq<User>, audits: seq<LoginAudit>, username: string, password: string,
                                  ip: string, now: int, checkpw: CheckPassword)
    requires var f := GetUserByUsername(users, username);
      f.None? || LockedOut(users[f.value], now) == Some(true)
    ensures var s := Login(users, audits, username, password, ip, now, checkpw);
      s.outcome == Unauthorized && s.users == users
      && s.audits == audits + [s.audits[|audits|]] && !s.audits[|audits|].isSuccessful
  {
  }

  /**
   * A wrong password for a user who is not locked out: 401, one more failed
   * attempt, `lockout_until` set to now + 15 minutes once there are five or
   * more, `is_locked` untouched, and every other row as it was.
   */
  lemma LoginWrongPassword(users: seq<User>, audits: seq<LoginAudit>, username: string, password: string,
                           ip: string, now: int, checkpw: CheckPassword)
    requires var f := GetUserByUsername(users, username);
      f.Some? && LockedOut(users[f.value], now) == Some(false) && !checkpw(password, users[f.value].hashedPassword)
    ensures var i := GetUserByUsername(users, username).value;
      var s := Login(users, audits, username, password, ip, now, checkpw);
      s.outcome == Unauthorized && |s.users| == |users|
      && s.users[i].failedLoginAttempts == users[i].failedLoginAttempts + 1
      && s.users[i].lockoutUntil == (if users[i].failedLoginAttempts + 1 >= 5 then Some(now + 900) else users[i].lockoutUntil)
      && s.users[i].isLocked == users[i].isLocked
      && s.users[i].hashedPassword == users[i].hashedPassword
      && (forall j :: 0 <= j < |users| && j != i ==> s.users[j] == users[j])
  {
  }

  /**
   * Tokens are issued iff the user exists, is not locked out and the
   * password checks; then the counter is 0, `lockout_until` is cleared and
   * nothing else about the user changes.
   */
  lemma LoginSucceedsIff(users: seq<User>, audits: seq<LoginAudit>, username: string, password: string,
                         ip: string, now: int, checkpw: CheckPassword)
    ensures var f := GetUserByUsername(users, username);
      var s := Login(users, audits, username, password, ip, now, checkpw);
      (s.outcome.TokenIssued? <==>
        f.Some? && LockedOut(users[f.value], now) == Some(false) && checkpw(password, users[f.value].hashedPassword))
      && (s.outcome.TokenIssued? ==>
            s.outcome.subject == username
            && s.users == users[f.value := users[f.value].(failedLoginAttempts := 0, lockoutUntil := None)])
  {
  }

  /** A login attempt never changes a lock flag, a name, an email or a password hash, nor adds or removes a user. */
  lemma LoginKeepsAccounts(users: seq<User>, audits: seq<LoginAudit>, username: string, password: string,
                           ip: string, now: int, checkpw: CheckPassword)
    ensures var s := Login(users, audits, username, password, ip, now, checkpw);
      |s.users| == |users|
      && forall j :: 0 <= j < |users| ==>
           s.users[j].isLocked == users[j].isLocked && s.users[j].username == users[j].username
           && s.users[j].email == users[j].email && s.users[j].hashedPassword == users[j].hashedPassword
           && s.users[j].id == users[j].id
  {
    match GetUserByUsername(users, username)
    case None =>
    case Some(i) =>
      KeepsAccount(users[i], AfterWrongPassword(users[i], now));
      KeepsAccount(users[i], AfterSuccess(users[i]));
  }

  /** What a login may change of a user: only its counter and lockout. */
  lemma KeepsAccount(u: User, v: User)
    requires v == u.(failedLoginAttempts := v.failedLoginAttempts, lockoutUntil := v.lockoutUntil)
    ensures v.isLocked == u.isLocked && v.username == u.username && v.email == u.email
    ensures v.hashedPassword == u.hashedPassword && v.id == u.id
  {
  }

  /** One login attempt: who, with which password, from where and when. */
  datatype Attempt = Attempt(username: string, password: string, ip: string, at: int)

  /** The tables after a sequence of login attempts, in order. */
  function Logins(users: seq<User>, audits: seq<LoginAudit>, attempts: seq<Attempt>, checkpw: CheckPassword): LoginStep
    decreases |attempts|
  {
    if attempts == [] then LoginStep(Unauthorized, users, audits)
    else
      var a := attempts[0];
      var s := Login(users, audits, a.username, a.password, a.ip, a.at, checkpw);
      Logins(s.users, s.audits, attempts[1..], checkpw)
  }

  /**
   * The lockout is never enforced: starting with no locked account, after
   * any sequence of attempts — however many wrong passwords, at whatever
   * times — the right password for an existing user still gets tokens,
   * because the wrong-password path writes `lockout_until` but never
   * `is_locked`.
   */
  lemma {:induction false} LockoutNeverEnforced(users: seq<User>, audits: seq<LoginAudit>, attempts: seq<Attempt>,
                                                checkpw: CheckPassword, username: string, password: string,
                                                ip: string, now: int)
    requires forall j :: 0 <= j < |users| ==> !users[j].isLocked
    requires var f := GetUserByUsername(users, username);
      f.Some? && checkpw(password, users[f.value].hashedPassword)
    ensures var s := Logins(users, audits, attempts, checkpw);
      Login(s.users, s.audits, username, password, ip, now, checkpw).outcome == TokenIssued(username)
    decreases |attempts|
  {
    if attempts != [] {
      var a := attempts[0];
      var s := Login(users, audits, a.username, a.password, a.ip, a.at, checkpw);
      LoginKeepsAccounts(users, audits, a.username, a.password, a.ip, a.at, checkpw);
      var f := GetUserByUsername(users, username);
      var g := GetUserByUsername(s.users, username);
      assert g.Some? && g.value <= f.value by {
        assert s.users[f.value].username == username;
      }
      assert g.value == f.value;
      LockoutNeverEnforced(s.users, s.audits, attempts[1..], checkpw, username, password, ip, now);
    } else {
      LoginSucceedsIff(users, audits, username, password, ip, now, checkpw);
    }
  }

  /** `change_user_password` as a function of the users before the call. */
  function PasswordChange(users: seq<User>, username: string, current: string, newPassword: string,
                          checkpw: CheckPassword, hash: HashPassword): Update
  {
    match GetUserByUsername(users, username)
    case None => Update(HttpError(404, "User not found."), users)
    case Some(i) =>
      if !checkpw(current, users[i].hashedPassword) then Update(HttpError(401, "Current password is incorrect."), users)
      else if |newPassword| < MinPasswordLength then Update(HttpError(400, PasswordTooShort), users)
      else Update(Ok(()), users[i := users[i].(hashedPassword := hash(newPassword))])
  }

  /**
   * The checks come in the order 404 (no such user), 401 (wrong current
   * password), 400 (newPassword password under 8 characters); the users change only
   * when all pass, and then only that user's hash, to the newPassword password's.
   */
  lemma PasswordChangeSpec(users: seq<User>, username: string, current: string, newPassword: string,
                           checkpw: CheckPassword, hash: HashPassword)
    ensures var f := GetUserByUsername(users, username);
      var r := PasswordChange(users, username, current, newPassword, checkpw, hash);
      (r.result.HttpError? && r.result.code == 404 <==> f.None?)
      && (r.result.HttpError? && r.result.code == 401 <==> f.Some? && !checkpw(current, users[f.value].hashedPassword))
      && (r.result.HttpError? && r.result.code == 400 <==>
            f.Some? && checkpw(current, users[f.value].hashedPassword) && |newPassword| < 8)
      && (r.result.HttpError? ==> r.users == users)
      && (r.result.Ok? ==> f.Some? && r.users == users[f.value := users[f.value].(hashedPassword := hash(newPassword))])
  {
  }

  /**
   * `handle_forgot_password`: the users after a reset token `token` is
   * issued to `email` at `now`. An unknown email changes nothing. Otherwise
   * only the first user with that email changes, gaining the token with an
   * expiry one hour ahead; when no earlier row holds the same token, the
   * token then looks up exactly that user.
   */
  function ForgotPassword(users: seq<User>, email: string, token: string, now: int): (r: seq<User>)
    ensures GetUserByEmail(users, email).None? ==> r == users
    ensures var f := GetUserByEmail(users, email);
      f.Some? ==> r == users[f.value := users[f.value].(resetToken := Some(token),
                                                         resetTokenExpiry := Some(now + ResetTokenSeconds))]
    ensures var f := GetUserByEmail(users, email);
      f.Some? && (forall j :: 0 <= j < f.value ==> users[j].resetToken != Some(token)) ==>
        GetUserByResetToken(r, token) == f && r[f.value].resetTokenExpiry == Some(now + 3600)
  {
    match GetUserByEmail(users, email)
    case None => users
    case Some(i) =>
      var r := users[i := users[i].(resetToken := Some(token), resetTokenExpiry := Some(now + ResetTokenSeconds))];
      assert r[i].resetToken == Some(token);
      r
  }

  /** `handle_reset_password` as a function of the users before the call. */
  function PasswordReset(users: seq<User>, token: string, newPassword: string, now: int, hash: HashPassword): Update
  {
    match GetUserByResetToken(users, token)
    case None => Update(HttpError(400, InvalidResetToken), users)
    case Some(i) =>
      if users[i].resetTokenExpiry.None? || users[i].resetTokenExpiry.value < now then
        Update(HttpError(400, InvalidResetToken), users)
      else if |newPassword| < MinPasswordLength then Update(HttpError(400, PasswordTooShort), users)
      else Update(Ok(()), users[i := users[i].(hashedPassword := hash(newPassword), resetToken := None, resetTokenExpiry := None)])
  }

  /**
   * A reset is refused as an invalid token iff nobody holds it or its
   * holder's expiry is missing or past; it is refused as too short iff the
   * token is good and the password has fewer than 8 characters; on success
   * the holder's hash is the newPassword password's and token and expiry are gone.
   */
  lemma PasswordResetSpec(users: seq<User>, token: string, newPassword: string, now: int, hash: HashPassword)
    ensures var f := GetUserByResetToken(users, token);
      var r := PasswordReset(users, token, newPassword, now, hash);
      var valid := f.Some? && users[f.value].resetTokenExpiry.Some? && users[f.value].resetTokenExpiry.value >= now;
      (r.result == HttpError(400, InvalidResetToken) <==> !valid)
      && (r.result == HttpError(400, PasswordTooShort) <==> valid && |newPassword| < 8)
      && (r.result.HttpError? ==> r.users == users)
      && (r.result.Ok? ==>
            f.Some? && r.users == users[f.value := users[f.value].(hashedPassword := hash(newPassword),
                                                                  resetToken := None, resetTokenExpiry := None)])
  {
  }

  /**
   * A token issued to an existing email, and held by nobody else, resets
   * that user's password any time up to one hour later, and only once.
   */
  lemma ForgotThenReset(users: seq<User>, email: string, token: string, now: int,
                        newPassword: string, later: int, hash: HashPassword, again: string, evenLater: int)
    requires GetUserByEmail(users, email).Some?
    requires forall j :: 0 <= j < |users| ==> users[j].resetToken != Some(token)
    requires later <= now + 3600 && |newPassword| >= 8
    ensures var i := GetUserByEmail(users, email).value;
      var r := PasswordReset(ForgotPassword(users, email, token, now), token, newPassword, later, hash);
      r.result.Ok? && |r.users| == |users|
      && r.users[i].hashedPassword == hash(newPassword) && r.users[i].resetToken.None?
      && (forall j :: 0 <= j < |users| && j != i ==> r.users[j] == users[j])
      && PasswordReset(r.users, token, again, evenLater, hash).result == HttpError(400, InvalidResetToken)
  {
    var i := GetUserByEmail(users, email).value;
    var issued := ForgotPassword(users, email, token, now);
    var f := GetUserByResetToken(issued, token);
    assert f == Some(i) by {
      assert issued[i].resetToken == Some(token);
    }
    var r := PasswordReset(issued, token, newPassword, later, hash);
    assert forall j :: 0 <= j < |r.users| ==> r.users[j].resetToken != Some(token);
  }

  /** A token used more than one hour after it was issued is refused and changes nothing. */
  lemma ExpiredTokenRefused(users: seq<User>, email: string, token: string, now: int,
                            newPassword: string, later: int, hash: HashPassword)
    requires GetUserByEmail(users, email).Some?
    requires forall j :: 0 <= j < |users| ==> users[j].resetToken != Some(token)
    requires later > now + 3600
    ensures var issued := ForgotPassword(users, email, token, now);
      PasswordReset(issued, token, newPassword, later, hash) == Update(HttpError(400, InvalidResetToken), issued)
  {
    var i := GetUserByEmail(users, email).value;
    var issued := ForgotPassword(users, email, token, now);
    var f := GetUserByResetToken(issued, token);
    assert f == Some(i) by {
      assert issued[i].resetToken == Some(token);
    }
  }

  /** `handle_user_login`: the checks, the counter updates and the audit row, committed to `db`. */
  method HandleUserLogin(db: Users, username: string, password: string, ip: string, now: int,
                         checkpw: CheckPassword) returns (r: LoginOutcome)
    requires db.Valid()
    modifies db
    ensures db.Valid()
    ensures var s := Login(old(db.users), old(db.audits), username, password, ip, now, checkpw);
      r == s.outcome && db.users == s.users && db.audits == s.audits
    ensures db.roles == old(db.roles) && db.nextId == old(db.nextId)
  {
    var found := GetUserByUsername(db.users, username);
    if found.None? {
      db.audits := db.audits + [LoginAudit(None, false, ip)];
      return Unauthorized;
    }
    var i := found.value;
    var user := db.users[i];
    if user.isLocked {
      if user.lockoutUntil.None? {
        return ComparisonRaised;
      }
      if user.lockoutUntil.value > now {
        db.audits := db.audits + [LoginAudit(Some(user.id), false, ip)];
        return Unauthorized;
      }
    }
    if !checkpw(password, user.hashedPassword) {
      user := user.(failedLoginAttempts := user.failedLoginAttempts + 1);
      if user.failedLoginAttempts >= LockoutThreshold {
        user := user.(lockoutUntil := Some(now + LockoutSeconds));
      }
      db.users := db.users[i := user];
      db.audits := db.audits + [LoginAudit(Some(user.id), false, ip)];
      return Unauthorized;
    }
    user := user.(failedLoginAttempts := 0);
    user := user.(lockoutUntil := None);
    db.users := db.users[i := user];
    db.audits := db.audits + [LoginAudit(Some(user.id), true, ip)];
    r := TokenIssued(user.username);
  }

  /** `change_user_password`, committed to `db`. */
  method ChangeUserPassword(db: Users, username: string, current: string, newPassword: string,
                            checkpw: CheckPassword, hash: HashPassword) returns (r: Result<()>)
    requires db.Valid()
    modifies db
    ensures db.Valid()
    ensures var u := PasswordChange(old(db.users), username, current, newPassword, checkpw, hash);
      r == u.result && db.users == u.users
    ensures db.audits == old(db.audits) && db.roles == old(db.roles) && db.nextId == old(db.nextId)
  {
    var found := GetUserByUsername(db.users, username);
    if found.None? {
      return HttpError(404, "User not found.");
    }
    var i := found.value;
    if !checkpw(current, db.users[i].hashedPassword) {
      return HttpError(401, "Current password is incorrect.");
    }
    if |newPassword| < MinPasswordLength {
      return HttpError(400, PasswordTooShort);
    }
    db.users := db.users[i := db.users[i].(hashedPassword := hash(newPassword))];
    r := Ok(());
  }

  /** `handle_forgot_password` with the generated token `token`; an unknown email changes nothing. */
  method HandleForgotPassword(db: Users, email: string, token: string, now: int)
    requires db.Valid()
    modifies db
    ensures db.Valid()
    ensures db.users == ForgotPassword(old(db.users), email, token, now)
    ensures db.audits == old(db.audits) && db.roles == old(db.roles) && db.nextId == old(db.nextId)
  {
    var found := GetUserByEmail(db.users, email);
    if found.None? {
      return;
    }
    var i := found.value;
    db.users := db.users[i := db.users[i].(resetToken := Some(token))];
    db.users := db.users[i := db.users[i].(resetTokenExpiry := Some(now + ResetTokenSeconds))];
  }

  /** `handle_reset_password`, committed to `db`. */
  method HandleResetPassword(db: Users, token: string, newPassword: string, now: int, hash: HashPassword)
    returns (r: Result<()>)
    requires db.Valid()
    modifies db
    ensures db.Valid()
    ensures var u := PasswordReset(old(db.users), token, newPassword, now, hash);
      r == u.result && db.users == u.users
    ensures db.audits == old(db.audits) && db.roles == old(db.roles) && db.nextId == old(db.nextId)
  {
    var found := GetUserByResetToken(db.users, token);
    if found.None? {
      return HttpError(400, InvalidResetToken);
    }
    var i := found.value;
    var user := db.users[i];
    if user.resetTokenExpiry.None? || user.resetTokenExpiry.value < now {
      return HttpError(400, InvalidResetToken);
    }
    if |newPassword| < MinPasswordLength {
      return HttpError(400, PasswordTooShort);
    }
    user := user.(hashedPassword := hash(newPassword));
    user := user.(resetToken := None);
    user := user.(resetTokenExpiry := None);
    db.users := db.users[i := user];
    r := Ok(());
  }
}

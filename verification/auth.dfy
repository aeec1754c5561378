/** The local auth store of src/stores/useAuth.ts: a table of registered
    users (the users entry of local storage) and the signed-in user without
    their password (the session entry, mirrored in the store's state).
    Login doubles as registration: an unknown email with an unused username
    creates an account. */
module Auth {
  import opened Wrappers
  import opened Issues
  import opened Zod
  import Validator
  import AuthSchema
  import Secure

  /** `User`: the password field holds the hex SHA-256 hash. */
  datatype User = User(username: string, email: string, password: string, bio: Option<string>)

  /** `Omit<User, 'password'>`: what the session holds. */
  datatype SafeUser = SafeUser(username: string, email: string, bio: Option<string>)

  /** `Partial<Omit<User, 'password'>>`: the properties a profile edit sets. */
  datatype UserPatch = UserPatch(username: Option<string>, email: Option<string>, bio: Option<string>)

  /** `APIResponse<T>`: `{ok: true, data?, message}` or
      `{ok: false, message, errors?}`. */
  datatype Response<+T> =
    | Success(data: Option<T>, message: string)
    | Failure(message: string, errors: Option<map<string, string>>)

  const InvalidModel: string := "invalid model data"
  const IncorrectPassword: string := "Incorrect password"
  const LoginSucceeded: string := "Success login user"
  const NameTaken: string := "should be unique name"
  /** The registration message, spelled as the store spells it. */
  const Registered: string := "Succesfully login"
  const UserNotFound: string := "User not found"
  const PasswordReset: string := "Password has been reset"

  /** `const { password, ...safeUser } = user`. */
  function Safe(u: User): SafeUser {
    SafeUser(u.username, u.email, u.bio)
  }

  /** `{ ...u, ...data }`: every property the patch carries replaces the
      user's, the rest (the password included) stay. */
  function Merge(u: User, data: UserPatch): (r: User)
    ensures r.password == u.password
    ensures data == UserPatch(None, None, None) ==> r == u
  {
    User(data.username.GetOr(u.username), data.email.GetOr(u.email), u.password,
         if data.bio.Some? then data.bio else u.bio)
  }

  /** `users.findIndex(u => u.email === email)`, `None` for -1. */
  function FindEmail(users: seq<User>, email: string): (r: Option<nat>)
    ensures r.None? <==> forall j :: 0 <= j < |users| ==> users[j].email != email
    ensures r.Some? ==> r.value < |users| && users[r.value].email == email
    ensures r.Some? ==> forall j :: 0 <= j < r.value ==> users[j].email != email
  {
    FindFirst(users, (u: User) => u.email == email)
  }

  /** `users.find(u => u.username === username)` finds something. */
  predicate NameInUse(users: seq<User>, username: string) {
    exists j :: 0 <= j < |users| && users[j].username == username
  }

  /** No two accounts share an email or a username. */
  predicate DistinctAccounts(users: seq<User>) {
    forall i, j :: 0 <= i < j < |users| ==>
      users[i].email != users[j].email && users[i].username != users[j].username
  }

  /** Changing one account's password keeps accounts distinct. */
  lemma PasswordChangeKeepsDistinct(users: seq<User>, i: nat, password: string)
    requires i < |users|
    ensures DistinctAccounts(users) <==> DistinctAccounts(users[i := users[i].(password := password)])
  {
    var changed := users[i := users[i].(password := password)];
    assert forall k :: 0 <= k < |users| ==>
        changed[k].email == users[k].email && changed[k].username == users[k].username;
  }

  /** Adding an account with an email and a username no account has keeps
      accounts distinct. */
  lemma RegistrationKeepsDistinct(users: seq<User>, u: User)
    requires DistinctAccounts(users)
    requires FindEmail(users, u.email).None? && !NameInUse(users, u.username)
    ensures DistinctAccounts(users + [u])
  {
  }

  /** A patch without properties changes nothing; applying a patch twice is
      applying it once; a patch never touches the password. */
  lemma MergeSpec(u: User, data: UserPatch)
    ensures Merge(u, UserPatch(None, None, None)) == u
    ensures Merge(Merge(u, data), data) == Merge(u, data)
    ensures Merge(u, data).password == u.password
    ensures Safe(Merge(u, data)).username == data.username.GetOr(u.username)
    ensures Safe(Merge(u, data)).email == data.email.GetOr(u.email)
  {
  }

  class AuthStore {
    /** The email and datetime checks zod uses. */
    const z: Oracle
    /** `crypto.subtle.digest('SHA-256', ·)`. */
    const sha256: seq<Secure.Byte> -> Secure.Digest
    /** The users entry of local storage. */
    var users: seq<User>
    /** `state.user`, written to the session entry with it. */
    var user: Option<SafeUser>

    /** The store reads the session left in storage. */
    constructor (z: Oracle, sha256: seq<Secure.Byte> -> Secure.Digest, users: seq<User>, session: Option<SafeUser>)
      ensures this.z == z && this.sha256 == sha256
      ensures this.users == users && user == session
    {
      this.z := z;
      this.sha256 := sha256;
      this.users := users;
      user := session;
    }

    /** `isLoggedIn`: `!!state.user`. */
    predicate IsLoggedIn(): (r: bool)
      reads this
      ensures r <==> user != None
    {
      user.Some?
    }

    /** `setSession(u)`: the session becomes `u` without its password. */
    method SetSession(u: User)
      modifies this
      ensures user == Some(Safe(u)) && IsLoggedIn()
      ensures users == old(users)
    {
      user := Some(Safe(u));
    }

    /** `logout()`: the session is cleared, the table is left alone. */
    method Logout()
      modifies this
      ensures user == None && !IsLoggedIn()
      ensures users == old(users)
    {
      user := None;
    }

    /** `updateUser(data)`: when signed in and the session's email is in the
        table, merge the patch into the first such account and take the
        session from the result; otherwise nothing changes. Uniqueness of
        emails and usernames is not re-checked. */
    method UpdateUser(data: UserPatch)
      modifies this
      ensures old(user).None? ==> users == old(users) && user == old(user)
      ensures old(user).Some? && FindEmail(old(users), old(user).value.email).None? ==>
                users == old(users) && user == old(user)
      ensures old(user).Some? && FindEmail(old(users), old(user).value.email).Some? ==>
                var i := FindEmail(old(users), old(user).value.email).value;
                && users == old(users)[i := Merge(old(users)[i], data)]
                && user == Some(Safe(Merge(old(users)[i], data)))
    {
      if user.None? {
        return;
      }
      var idx := FindEmail(users, user.value.email);
      if idx.Some? {
        var i := idx.value;
        users := users[i := Merge(users[i], data)];
        SetSession(users[i]);
      }
    }

    /** `forgot(form)`: a form that fails the forgot-password schema is
        answered with its field errors; an unknown email with 'User not
        found'; otherwise the first account with that email gets the hash of
        the new password. The session is never touched. */
    method Forgot(form: AuthSchema.ForgotForm) returns (r: Response<()>)
      modifies this
      ensures user == old(user)
      ensures var p := AuthSchema.ForgotParse(z, form);
              !p.Parsed? ==> r == Failure(InvalidModel, Some(LastWins(p.issues, Validator.FieldOf)))
                             && users == old(users)
      ensures AuthSchema.ForgotParse(z, form).Parsed? && FindEmail(old(users), form.email).None? ==>
                r == Failure(UserNotFound, None) && users == old(users)
      ensures AuthSchema.ForgotParse(z, form).Parsed? && FindEmail(old(users), form.email).Some? ==>
                var i := FindEmail(old(users), form.email).value;
                && r == Success(None, PasswordReset)
                && users == old(users)[i := old(users)[i].(password := Secure.HashPw(sha256, form.password))]
      ensures DistinctAccounts(old(users)) ==> DistinctAccounts(users)
    {
      var result := Validator.Validate((f: AuthSchema.ForgotForm) => AuthSchema.ForgotParse(z, f), form);
      if result.Errors? {
        return Failure(InvalidModel, Some(result.errors));
      }
      var email, password := result.data.email, result.data.password;
      var idx := FindEmail(users, email);
      if idx.None? {
        return Failure(UserNotFound, None);
      }
      var i := idx.value;
      var hashed := Secure.HashPw(sha256, password);
      PasswordChangeKeepsDistinct(users, i, hashed);
      users := users[i := users[i].(password := hashed)];
      r := Success(None, PasswordReset);
    }

    /** `login(form)`: a form that fails the login schema is answered with
        its field errors. A known email signs in as the stored account when
        the password verifies against its hash (the submitted username is
        ignored). An unknown email registers a new account, unless the
        username is already taken. */
    method Login(form: AuthSchema.LoginForm) returns (r: Response<SafeUser>)
      modifies this
      ensures var p := AuthSchema.LoginParse(z, form);
              !p.Parsed? ==> r == Failure(InvalidModel, Some(LastWins(p.issues, Validator.FieldOf)))
                             && users == old(users) && user == old(user)
      ensures AuthSchema.LoginParse(z, form).Parsed? && FindEmail(old(users), form.email).Some? ==>
                var existing := old(users)[FindEmail(old(users), form.email).value];
                && users == old(users)
                && (if Secure.VerifyPw(sha256, form.password, existing.password)
                    then r == Success(Some(Safe(existing)), LoginSucceeded) && user == Some(Safe(existing))
                    else r == Failure(IncorrectPassword, None) && user == old(user))
      ensures AuthSchema.LoginParse(z, form).Parsed? && FindEmail(old(users), form.email).None?
              && NameInUse(old(users), form.username) ==>
                r == Failure(NameTaken, None) && users == old(users) && user == old(user)
      ensures AuthSchema.LoginParse(z, form).Parsed? && FindEmail(old(users), form.email).None?
              && !NameInUse(old(users), form.username) ==>
                var created := User(form.username, form.email, Secure.HashPw(sha256, form.password), None);
                && users == old(users) + [created]
                && user == Some(Safe(created))
                && r == Success(Some(Safe(created)), Registered)
      ensures DistinctAccounts(old(users)) ==> DistinctAccounts(users)
    {
      var result := Validator.Validate((f: AuthSchema.LoginForm) => AuthSchema.LoginParse(z, f), form);
      if result.Errors? {
        return Failure(InvalidModel, Some(result.errors));
      }
      var username, email, password := result.data.username, result.data.email, result.data.password;
      var idx := FindEmail(users, email);
      if idx.Some? {
        var existing := users[idx.value];
        var matches := Secure.VerifyPw(sha256, password, existing.password);
        if !matches {
          return Failure(IncorrectPassword, None);
        }
        SetSession(existing);
        return Success(user, LoginSucceeded);
      }
      if NameInUse(users, username) {
        return Failure(NameTaken, None);
      }
      var hashed := Secure.HashPw(sha256, password);
      var created := User(username, email, hashed, None);
      if DistinctAccounts(users) {
        RegistrationKeepsDistinct(users, created);
      }
      users := users + [created];
      SetSession(created);
      r := Success(user, Registered);
    }
  }
}

/** The `/api/users` routes: who may read, change or deactivate which user,
    the required fields of a new user, the password rules, and the ordered
    SET clause that the update handler assembles. */
module UserRoutes {
  import opened JsCore
  import opened ServerAuth

  /** `req.session.userId === parseInt(id)`: the URL names the caller. A
      URL id without digits parses to `NaN`, which equals nothing. */
  predicate IsSelf(callerId: JsValue, id: string)
  {
    match ParseInt(id)
    case None => false
    case Some(v) => callerId == Num(v as real)
  }

  /** GET /:id: one's own record, or any record for an admin or a manager. */
  predicate CanViewUser(callerId: JsValue, callerRole: JsValue, id: string)
  {
    IsSelf(callerId, id) || callerRole == Str("admin") || callerRole == Str("manager")
  }

  /** PUT /:id and PUT /:id/password: one's own record, or any record for an admin. */
  predicate CanUpdateUser(callerId: JsValue, callerRole: JsValue, id: string)
  {
    IsSelf(callerId, id) || callerRole == Str("admin")
  }

  /** Whoever may update a user may also read it. */
  lemma UpdateImpliesView(callerId: JsValue, callerRole: JsValue, id: string)
    ensures CanUpdateUser(callerId, callerRole, id) ==> CanViewUser(callerId, callerRole, id)
  {
  }

  /** The URL the browser builds for user `n` (`/api/users/${n}`) names that
      user, whatever the caller's role. */
  lemma OwnRecordAllowed(n: nat, callerRole: JsValue)
    ensures IsSelf(Num(n as real), DecimalString(n))
    ensures CanViewUser(Num(n as real), callerRole, DecimalString(n))
    ensures CanUpdateUser(Num(n as real), callerRole, DecimalString(n))
  {
    ParseIntDecimalString(n);
  }

  /** A worker reaches nobody else's record: reading and updating both need
      the caller's own id. */
  lemma WorkerOnlySelf(callerId: JsValue, id: string)
    ensures CanViewUser(callerId, Str("worker"), id) <==> IsSelf(callerId, id)
    ensures CanUpdateUser(callerId, Str("worker"), id) <==> IsSelf(callerId, id)
  {
  }

  /** A row of the `users` table as the routes return it. */
  datatype UserRecord = UserRecord(id: int, username: string, email: string, firstName: string, lastName: string,
                                   role: string, phone: string, isActive: bool)

  /** GET /:id. `found` is the row with that id, if any. */
  function GetUser(callerId: JsValue, callerRole: JsValue, id: string, found: Option<UserRecord>): (r: Result<UserRecord>)
    ensures !Truthy(callerId) ==> r == Fail(401, "Authentication required")
    ensures Truthy(callerId) && !CanViewUser(callerId, callerRole, id) ==> r == Fail(403, "Access denied")
    ensures Truthy(callerId) && CanViewUser(callerId, callerRole, id) && found.None? ==> r == Fail(404, "User not found")
    ensures r.Ok? <==> Truthy(callerId) && CanViewUser(callerId, callerRole, id) && found.Some?
    ensures r.Ok? ==> r.value == found.value
  {
    if RequireAuth(callerId).Deny? then Fail(401, "Authentication required")
    else if !CanViewUser(callerId, callerRole, id) then Fail(403, "Access denied")
    else if found.None? then Fail(404, "User not found")
    else Ok(found.value)
  }

  /** The JSON body of POST / and PUT /:id. */
  datatype UserBody = UserBody(username: JsValue, email: JsValue, password: JsValue, firstName: JsValue,
                               lastName: JsValue, role: JsValue, phone: JsValue, isActive: JsValue)

  /** The values inserted for a new user. */
  datatype NewUser = NewUser(username: JsValue, email: JsValue, passwordHash: string, firstName: JsValue,
                             lastName: JsValue, role: JsValue, phone: JsValue)

  /** The five fields a new user must have, each truthy. */
  predicate HasRequiredFields(body: UserBody)
  {
    Truthy(body.username) && Truthy(body.email) && Truthy(body.password)
    && Truthy(body.firstName) && Truthy(body.lastName)
  }

  /** POST /: admins only; user name, e-mail, password and both names are
      required; a user name or e-mail already in use (`taken`) is a conflict;
      the role defaults to `worker`. */
  function CreateUser(callerId: JsValue, callerRole: JsValue, body: UserBody, taken: bool, hash: string -> string)
    : (r: Result<NewUser>)
    ensures !Truthy(callerId) ==> r.Fail? && r.status == 401
    ensures Truthy(callerId) && RequireRole(["admin"], callerRole).Deny? ==> r.Fail? && r.status == 403
    ensures r.Ok? ==> Truthy(callerId) && callerRole == Str("admin") && !taken
    ensures r.Ok? ==> Truthy(body.username) && Truthy(body.email) && Truthy(body.password)
                      && Truthy(body.firstName) && Truthy(body.lastName)
    ensures r.Ok? ==> body.password.Str? && r.value.passwordHash == hash(body.password.s)
    ensures r.Ok? ==> r.value.role == (if Truthy(body.role) then body.role else Str("worker"))
    ensures r.Ok? ==> Truthy(r.value.role)
    ensures Truthy(callerId) && callerRole == Str("admin") && HasRequiredFields(body) && taken
            ==> r == Fail(409, "Username or email already exists")
    ensures Truthy(callerId) && callerRole == Str("admin") && HasRequiredFields(body) && !taken
            ==> (r.Ok? <==> body.password.Str?)
  {
    if RequireAuth(callerId).Deny? then Fail(401, "Authentication required")
    else if RequireRole(["admin"], callerRole).Deny? then Fail(403, "Insufficient permissions")
    else if !Truthy(body.username) || !Truthy(body.email) || !Truthy(body.password)
            || !Truthy(body.firstName) || !Truthy(body.lastName)
    then Fail(400, "Required fields missing")
    else if taken then Fail(409, "Username or email already exists")
    else if !body.password.Str? then Fail(500, "Internal server error")
    else
      var role := if Truthy(body.role) then body.role else Str("worker");
      Ok(NewUser(body.username, body.email, hash(body.password.s), body.firstName, body.lastName, role, body.phone))
  }

  /** A missing required field is refused before the user table is consulted,
      whoever the admin is and whatever is taken. */
  lemma CreateNeedsAllFields(callerId: JsValue, body: UserBody, taken: bool, hash: string -> string)
    requires Truthy(callerId)
    requires !Truthy(body.username) || !Truthy(body.email) || !Truthy(body.password)
             || !Truthy(body.firstName) || !Truthy(body.lastName)
    ensures CreateUser(callerId, Str("admin"), body, taken, hash) == Fail(400, "Required fields missing")
  {
  }

  /** How PUT /:id treats the `password` field. */
  datatype PasswordCheck = NoPassword | Accepted(password: string) | TooShort | NotAString

  /** `password && password.trim() !== ''`, then `password.length < 6`:
      a blank password is ignored, a short one refused, and a value that is
      not a string makes `trim` throw. */
  function CheckPassword(p: JsValue): (c: PasswordCheck)
    ensures c.Accepted? ==> p == Str(c.password) && |c.password| >= 6
  {
    if !Truthy(p) then NoPassword
    else if !p.Str? then NotAString
    else if !NotBlank(p.s) then NoPassword
    else if |p.s| < 6 then TooShort
    else Accepted(p.s)
  }

  /** The password rule, string by string: white space alone is ignored, any
      other string shorter than six characters is refused, the rest is kept. */
  lemma PasswordRule(s: string)
    ensures !NotBlank(s) ==> CheckPassword(Str(s)) == NoPassword
    ensures NotBlank(s) && |s| < 6 ==> CheckPassword(Str(s)) == TooShort
    ensures NotBlank(s) && |s| >= 6 ==> CheckPassword(Str(s)) == Accepted(s)
  {
  }

  /** The first five PUT /:id candidates, in the handler's order: user
      name, e-mail and names when truthy, the phone whenever it is not
      `undefined`. */
  function PersonalCandidates(body: UserBody): seq<Candidate>
  {
    [Candidate(Truthy(body.username), Username, body.username),
     Candidate(Truthy(body.email), Email, body.email),
     Candidate(Truthy(body.firstName), FirstName, body.firstName),
     Candidate(Truthy(body.lastName), LastName, body.lastName),
     Candidate(!body.phone.Undefined?, Phone, body.phone)]
  }

  /** The rest of the PUT /:id candidates: the hash of an accepted password,
      and, for an admin only, a truthy role and any defined active flag. */
  function AccessCandidates(body: UserBody, isAdmin: bool, hash: string -> string): seq<Candidate>
  {
    var check := CheckPassword(body.password);
    [Candidate(check.Accepted?, PasswordHash, if check.Accepted? then Str(hash(check.password)) else Null),
     Candidate(isAdmin && Truthy(body.role), Role, body.role),
     Candidate(isAdmin && !body.isActive.Undefined?, IsActive, body.isActive)]
  }

  function UserCandidates(body: UserBody, isAdmin: bool, hash: string -> string): seq<Candidate>
  {
    PersonalCandidates(body) + AccessCandidates(body, isAdmin, hash)
  }

  /** The PUT /:id SET clause. */
  function UserAssignments(body: UserBody, isAdmin: bool, hash: string -> string): seq<Assignment>
  {
    Clause(UserCandidates(body, isAdmin, hash))
  }

  /** Which columns PUT /:id sets, and to what. Role and active flag are set
      only by an admin: a request by anyone else never changes them. */
  lemma UserColumns(body: UserBody, isAdmin: bool, hash: string -> string, c: Column)
    ensures Assigned(UserAssignments(body, isAdmin, hash), c)
            == match c
               case Username => if Truthy(body.username) then Some(body.username) else None
               case Email => if Truthy(body.email) then Some(body.email) else None
               case FirstName => if Truthy(body.firstName) then Some(body.firstName) else None
               case LastName => if Truthy(body.lastName) then Some(body.lastName) else None
               case Phone => if body.phone.Undefined? then None else Some(body.phone)
               case PasswordHash =>
                 if CheckPassword(body.password).Accepted? then Some(Str(hash(body.password.s))) else None
               case Role => if isAdmin && Truthy(body.role) then Some(body.role) else None
               case IsActive => if isAdmin && !body.isActive.Undefined? then Some(body.isActive) else None
  {
    var cs := UserCandidates(body, isAdmin, hash);
    match c
    case Username => AssignedUnique(cs, 0, c);
    case Email => AssignedUnique(cs, 1, c);
    case FirstName => AssignedUnique(cs, 2, c);
    case LastName => AssignedUnique(cs, 3, c);
    case Phone => AssignedUnique(cs, 4, c);
    case PasswordHash => AssignedUnique(cs, 5, c);
    case Role => AssignedUnique(cs, 6, c);
    case IsActive => AssignedUnique(cs, 7, c);
  }

  /** The handler's lists after the personal columns. */
  method PersonalLists(body: UserBody) returns (fields: seq<string>, values: seq<JsValue>)
    ensures fields == Fields(Clause(PersonalCandidates(body))) && values == Values(Clause(PersonalCandidates(body)))
  {
    ghost var cs: seq<Candidate> := [];
    var x := Candidate(Truthy(body.username), Username, body.username);
    fields, values := PushField([], [], cs, x);
    cs := cs + [x];
    x := Candidate(Truthy(body.email), Email, body.email);
    fields, values := PushField(fields, values, cs, x);
    cs := cs + [x];
    x := Candidate(Truthy(body.firstName), FirstName, body.firstName);
    fields, values := PushField(fields, values, cs, x);
    cs := cs + [x];
    x := Candidate(Truthy(body.lastName), LastName, body.lastName);
    fields, values := PushField(fields, values, cs, x);
    cs := cs + [x];
    x := Candidate(!body.phone.Undefined?, Phone, body.phone);
    fields, values := PushField(fields, values, cs, x);
    cs := cs + [x];
    assert cs == PersonalCandidates(body);
  }

  /** The handler's two lists, pushed one optional field at a time; `check`
      is the verdict on the password, which stops the pushes when it is
      refused. */
  method UserLists(body: UserBody, isAdmin: bool, hash: string -> string)
    returns (fields: seq<string>, values: seq<JsValue>, check: PasswordCheck)
    ensures check == CheckPassword(body.password)
    ensures !check.TooShort? && !check.NotAString? ==>
              fields == Fields(UserAssignments(body, isAdmin, hash))
              && values == Values(UserAssignments(body, isAdmin, hash))
  {
    fields, values := PersonalLists(body);
    ghost var cs := PersonalCandidates(body);
    check := CheckPassword(body.password);
    if check.TooShort? || check.NotAString? {
      return;
    }
    var x := Candidate(check.Accepted?, PasswordHash, if check.Accepted? then Str(hash(check.password)) else Null);
    fields, values := PushField(fields, values, cs, x);
    cs := cs + [x];
    x := Candidate(isAdmin && Truthy(body.role), Role, body.role);
    fields, values := PushField(fields, values, cs, x);
    cs := cs + [x];
    x := Candidate(isAdmin && !body.isActive.Undefined?, IsActive, body.isActive);
    fields, values := PushField(fields, values, cs, x);
    cs := cs + [x];
    assert cs == UserCandidates(body, isAdmin, hash);
  }

  /** PUT /:id. `hash` is bcrypt's hash of a password string; `affectedRows`
      is what the database reports for the statement, which is keyed by the
      URL id. */
  method UpdateUser(callerId: JsValue, callerRole: JsValue, id: string, body: UserBody, hash: string -> string,
                    affectedRows: nat)
    returns (r: Result<UpdateQuery>)
    ensures !Truthy(callerId) ==> r == Fail(401, "Authentication required")
    ensures Truthy(callerId) && !CanUpdateUser(callerId, callerRole, id) ==> r == Fail(403, "Access denied")
    ensures Truthy(callerId) && CanUpdateUser(callerId, callerRole, id) ==>
              match CheckPassword(body.password)
              case TooShort => r == Fail(400, "Password must be at least 6 characters")
              case NotAString => r.Fail? && r.status == 500
              case _ =>
                var a := UserAssignments(body, callerRole == Str("admin"), hash);
                if a == [] then r == Fail(400, "No fields to update")
                else if affectedRows == 0 then r == Fail(404, "User not found")
                else r == Ok(Query(a, Str(id)))
  {
    if RequireAuth(callerId).Deny? {
      return Fail(401, "Authentication required");
    }
    if !IsSelf(callerId, id) && callerRole != Str("admin") {
      return Fail(403, "Access denied");
    }
    var fields, values, check := UserLists(body, callerRole == Str("admin"), hash);
    if check.TooShort? {
      return Fail(400, "Password must be at least 6 characters");
    }
    if check.NotAString? {
      // `trim` is not a function of a non-string value
      return Fail(500, "Internal server error");
    }
    if |fields| == 0 {
      return Fail(400, "No fields to update");
    }
    values := values + [Str(id)];
    if affectedRows == 0 {
      return Fail(404, "User not found");
    }
    r := Ok(UpdateQuery(fields, values));
  }

  /** PUT /:id/password. `stored` is the user's current hash, if the user
      exists; `matches` is bcrypt's comparison; `hash` hashes the new
      password. The answer is the hash that is stored. */
  function ChangePassword(callerId: JsValue, callerRole: JsValue, id: string, currentPassword: JsValue,
                          newPassword: JsValue, stored: Option<string>, matches: (JsValue, string) -> bool,
                          hash: string -> string, affectedRows: nat): (r: Result<string>)
    ensures !Truthy(callerId) ==> r.Fail? && r.status == 401
    ensures Truthy(callerId) && !CanUpdateUser(callerId, callerRole, id) ==> r.Fail? && r.status == 403
    ensures r.Ok? ==> newPassword.Str? && |newPassword.s| >= 6 && r.value == hash(newPassword.s)
    ensures r.Ok? && callerRole != Str("admin") ==>
              IsSelf(callerId, id) && Truthy(currentPassword) && stored.Some? && matches(currentPassword, stored.value)
  {
    if RequireAuth(callerId).Deny? then Fail(401, "Authentication required")
    else if !CanUpdateUser(callerId, callerRole, id) then Fail(403, "Access denied")
    // `length` of a non-string value is undefined, and `undefined < 6` is false
    else if !Truthy(newPassword) || (newPassword.Str? && |newPassword.s| < 6)
    then Fail(400, "New password must be at least 6 characters")
    else if callerRole != Str("admin") && !Truthy(currentPassword) then Fail(400, "Current password required")
    else if callerRole != Str("admin") && stored.None? then Fail(404, "User not found")
    else if callerRole != Str("admin") && !matches(currentPassword, stored.value)
    then Fail(401, "Current password is incorrect")
    else if !newPassword.Str? then Fail(500, "Internal server error")
    else if affectedRows == 0 then Fail(404, "User not found")
    else Ok(hash(newPassword.s))
  }

  /** An admin sets any user's password without knowing the current one. */
  lemma AdminResetsAnyPassword(callerId: JsValue, id: string, currentPassword: JsValue, newPassword: string,
                               stored: Option<string>, matches: (JsValue, string) -> bool, hash: string -> string)
    requires Truthy(callerId) && |newPassword| >= 6
    ensures ChangePassword(callerId, Str("admin"), id, currentPassword, Str(newPassword), stored, matches, hash, 1)
            == Ok(hash(newPassword))
  {
  }

  /** The URL id names a row of the table. */
  predicate NamesUser(id: string, users: map<int, UserRecord>)
  {
    ParseInt(id).Some? && ParseInt(id).value in users
  }

  /** DELETE /:id on a table keyed by user id: admins only, never oneself,
      and only a flag changes. */
  function DeleteUser(callerId: JsValue, callerRole: JsValue, id: string, users: map<int, UserRecord>)
    : (r: Result<map<int, UserRecord>>)
    ensures !Truthy(callerId) ==> r.Fail? && r.status == 401
    ensures Truthy(callerId) && RequireRole(["admin"], callerRole).Deny? ==> r.Fail? && r.status == 403
    ensures Truthy(callerId) && callerRole == Str("admin") && IsSelf(callerId, id) ==>
              r == Fail(400, "Cannot delete your own account")
    ensures r.Ok? <==> Truthy(callerId) && callerRole == Str("admin") && !IsSelf(callerId, id) && NamesUser(id, users)
    ensures r.Ok? ==> NamesUser(id, users) && SoftDeleted(users, ParseInt(id).value, r.value)
  {
    if RequireAuth(callerId).Deny? then Fail(401, "Authentication required")
    else if RequireRole(["admin"], callerRole).Deny? then Fail(403, "Insufficient permissions")
    else if IsSelf(callerId, id) then Fail(400, "Cannot delete your own account")
    else if !NamesUser(id, users) then Fail(404, "User not found")
    else
      var k := ParseInt(id).value;
      Ok(users[k := users[k].(isActive := false)])
  }

  /** `after` is `before` with user `k` deactivated and everything else as it was. */
  ghost predicate SoftDeleted(before: map<int, UserRecord>, k: int, after: map<int, UserRecord>)
    requires k in before
  {
    && after.Keys == before.Keys
    && after[k] == before[k].(isActive := false)
    && (forall j :: j in before && j != k ==> after[j] == before[j])
  }
}

/** The server's authentication layer: the `requireAuth` and `requireRole`
    middleware, the login handler that fills the HTTP session, and the
    profile handler that assembles an `UPDATE users SET ...` statement from
    the optional fields of the request. */
module ServerAuth {
  import opened JsCore

  /** A middleware's verdict: go on to the handler, or answer with an error. */
  datatype Gate = Next | Deny(status: int, error: string)

  /** `requireAuth`: the request goes on exactly when its session holds a user id. */
  function RequireAuth(userId: JsValue): (g: Gate)
    ensures g.Next? <==> Truthy(userId)
    ensures g.Deny? ==> g.status == 401
  {
    if Truthy(userId) then Next else Deny(401, "Authentication required")
  }

  /** `roles.includes(role)`: strict equality with one of the names. */
  predicate HasRole(roles: seq<string>, role: JsValue)
  {
    role.Str? && role.s in roles
  }

  /** `requireRole(roles)`: the session role must be set (truthy) and listed. */
  function RequireRole(roles: seq<string>, role: JsValue): (g: Gate)
    ensures g.Next? ==> role.Str? && role.s != "" && role.s in roles
    ensures g.Deny? ==> g.status == 403
  {
    if Truthy(role) && HasRole(roles, role) then Next else Deny(403, "Insufficient permissions")
  }

  /** Listing more roles never turns a request away that fewer roles let
      through: an admin-only route is at least as strict as an admin-or-manager one. */
  lemma RequireRoleMonotone(fewer: seq<string>, more: seq<string>, role: JsValue)
    requires forall x :: x in fewer ==> x in more
    ensures RequireRole(fewer, role).Next? ==> RequireRole(more, role).Next?
  {
  }

  /** A listed role passes unless it is the empty name, which is falsy. */
  lemma RequireRoleExactly(roles: seq<string>, role: string)
    ensures RequireRole(roles, Str(role)).Next? <==> role != "" && role in roles
  {
  }

  /** `req.session`: what the server remembers about a logged-in browser. */
  class HttpSession {
    var userId: JsValue
    var username: JsValue
    var userRole: JsValue
    var firstName: JsValue
    var lastName: JsValue

    /** A fresh session, before anybody has logged in. */
    constructor ()
      ensures userId == Undefined && username == Undefined && userRole == Undefined
      ensures firstName == Undefined && lastName == Undefined
    {
      userId := Undefined;
      username := Undefined;
      userRole := Undefined;
      firstName := Undefined;
      lastName := Undefined;
    }

    /** POST /api/auth/login. `found` is the active user with that user name,
        if any; `passwordMatches` is bcrypt's comparison of a password with a
        stored hash. `name` and `password` are the body's fields. A password
        that is not a string makes the comparison reject, which the handler
        answers with 500. On success the session takes the user's id, user
        name, role and names. */
    method Login(name: JsValue, password: JsValue, found: Option<UserRow>,
                 passwordMatches: (JsValue, string) -> bool)
      returns (r: Result<LoginInfo>)
      modifies this
      ensures !Truthy(name) || !Truthy(password) ==> r == Fail(400, "Username and password are required")
      ensures r.Ok? <==> Truthy(name) && Truthy(password) && found.Some? && password.Str?
                         && passwordMatches(password, found.value.passwordHash)
      ensures Truthy(name) && Truthy(password) && found.None? ==> r == Fail(401, "Invalid credentials")
      ensures Truthy(name) && Truthy(password) && found.Some? && !password.Str?
              ==> r == Fail(500, "Internal server error")
      ensures Truthy(name) && password.Str? && password.s != "" && r.Fail? ==> r == Fail(401, "Invalid credentials")
      ensures r.Fail? ==> unchanged(this)
      ensures r.Ok? ==>
                var u := found.value;
                && userId == Num(u.id as real) && username == Str(u.username) && userRole == Str(u.role)
                && firstName == Str(u.firstName) && lastName == Str(u.lastName)
                && r.value == LoginInfo(u.id, u.username, u.firstName, u.lastName, u.role, u.email)
    {
      if !Truthy(name) || !Truthy(password) {
        return Fail(400, "Username and password are required");
      }
      if found.None? {
        return Fail(401, "Invalid credentials");
      }
      var user := found.value;
      if !password.Str? {
        return Fail(500, "Internal server error");
      }
      if !passwordMatches(password, user.passwordHash) {
        return Fail(401, "Invalid credentials");
      }
      userId := Num(user.id as real);
      username := Str(user.username);
      userRole := Str(user.role);
      firstName := Str(user.firstName);
      lastName := Str(user.lastName);
      r := Ok(LoginInfo(user.id, user.username, user.firstName, user.lastName, user.role, user.email));
    }

    /** PUT /api/auth/profile. `hash` is bcrypt's hash of a password string;
        `affectedRows` is what the database reports for the statement. The
        statement sets the columns of `ProfileAssignments` and is keyed by the
        session's user id; the session names follow a successful update. */
    method UpdateProfile(body: ProfileBody, hash: string -> string, affectedRows: nat)
      returns (r: Result<UpdateQuery>)
      modifies this
      ensures !Truthy(old(userId)) ==> r == Fail(401, "Authentication required")
      ensures Truthy(old(userId)) && Truthy(body.password) && !body.password.Str? ==> r.Fail? && r.status == 500
      ensures r.Ok? ==> Truthy(old(userId)) && ValidProfilePassword(body)
                        && r.value == Query(ProfileAssignments(body, hash), old(userId))
                        && r.value.fields != []
      ensures Truthy(old(userId)) && ValidProfilePassword(body) && ProfileAssignments(body, hash) == [] ==>
                r == Fail(400, "No fields to update")
      ensures Truthy(old(userId)) && ValidProfilePassword(body) && ProfileAssignments(body, hash) != [] ==>
                (r.Ok? <==> affectedRows != 0)
      ensures userId == old(userId) && username == old(username) && userRole == old(userRole)
      ensures firstName == (if r.Ok? && Truthy(body.firstName) then body.firstName else old(firstName))
      ensures lastName == (if r.Ok? && Truthy(body.lastName) then body.lastName else old(lastName))
    {
      if !Truthy(userId) {
        return Fail(401, "Authentication required");
      }
      var fields, values, hashable := ProfileLists(body, hash);
      if !hashable {
        // bcrypt refuses to hash anything but a string
        return Fail(500, "Internal server error");
      }
      if |fields| == 0 {
        return Fail(400, "No fields to update");
      }
      values := values + [userId];
      if affectedRows == 0 {
        return Fail(404, "User not found");
      }
      if Truthy(body.firstName) {
        firstName := body.firstName;
      }
      if Truthy(body.lastName) {
        lastName := body.lastName;
      }
      r := Ok(UpdateQuery(fields, values));
    }
  }

  /** A row of the `users` table, as the login reads it. */
  datatype UserRow = UserRow(id: int, username: string, role: string, firstName: string, lastName: string,
                             email: string, passwordHash: string)

  datatype LoginInfo = LoginInfo(id: int, username: string, firstName: string, lastName: string,
                                 role: string, email: string)

  /** The columns of the `users` table that the update handlers may set. */
  datatype Column = Username | Email | FirstName | LastName | Phone | PasswordHash | Role | IsActive

  /** The `column = ?` piece of the SET clause for a column. */
  function Setter(c: Column): string
  {
    match c
    case Username => "username = ?"
    case Email => "email = ?"
    case FirstName => "first_name = ?"
    case LastName => "last_name = ?"
    case Phone => "phone = ?"
    case PasswordHash => "password_hash = ?"
    case Role => "role = ?"
    case IsActive => "is_active = ?"
  }

  /** One `column = ?` of an UPDATE statement with the value bound to it. */
  datatype Assignment = Assignment(column: Column, value: JsValue)

  /** The statement the handlers send: the `column = ?` pieces joined into
      the SET clause, and the bound values, the row key last. */
  datatype UpdateQuery = UpdateQuery(fields: seq<string>, values: seq<JsValue>)

  function Fields(a: seq<Assignment>): (r: seq<string>)
    ensures |r| == |a|
  {
    seq(|a|, i requires 0 <= i < |a| => Setter(a[i].column))
  }

  function Values(a: seq<Assignment>): (r: seq<JsValue>)
    ensures |r| == |a|
  {
    seq(|a|, i requires 0 <= i < |a| => a[i].value)
  }

  /** Pushing a `column = ?` and its value onto the two lists. */
  lemma QueryPush(a: seq<Assignment>, x: Assignment)
    ensures Fields(a + [x]) == Fields(a) + [Setter(x.column)]
    ensures Values(a + [x]) == Values(a) + [x.value]
  {
    assert Fields(a + [x]) == Fields(a) + [Setter(x.column)];
    assert Values(a + [x]) == Values(a) + [x.value];
  }

  /** The statement for some assignments on the row with the given key: one
      value per field and then the key. */
  function Query(a: seq<Assignment>, key: JsValue): (q: UpdateQuery)
    ensures |q.fields| == |a| && |q.values| == |a| + 1 && q.values[|a|] == key
  {
    UpdateQuery(Fields(a), Values(a) + [key])
  }

  /** One `if (cond) { updateFields.push('column = ?'); updateValues.push(value) }`
      of an update handler. */
  datatype Candidate = Candidate(pushed: bool, column: Column, value: JsValue)

  /** The assignments that a run of candidates pushes, in order. */
  function Clause(cs: seq<Candidate>): (a: seq<Assignment>)
    ensures |a| <= |cs|
  {
    if cs == [] then []
    else
      var before := Clause(cs[..|cs| - 1]);
      var last := cs[|cs| - 1];
      if last.pushed then before + [Assignment(last.column, last.value)] else before
  }

  /** One more candidate on the two lists: pushed onto both when it is
      pushed, and otherwise leaving both as they were. */
  lemma ClausePush(cs: seq<Candidate>, x: Candidate)
    ensures Fields(Clause(cs + [x])) == if x.pushed then Fields(Clause(cs)) + [Setter(x.column)] else Fields(Clause(cs))
    ensures Values(Clause(cs + [x])) == if x.pushed then Values(Clause(cs)) + [x.value] else Values(Clause(cs))
  {
    assert (cs + [x])[..|cs|] == cs;
    if x.pushed {
      QueryPush(Clause(cs), Assignment(x.column, x.value));
    }
  }

  /** `if (cond) { updateFields.push('column = ?'); updateValues.push(value) }`
      on the lists built from the candidates `cs` so far. */
  method PushField(fields: seq<string>, values: seq<JsValue>, ghost cs: seq<Candidate>, x: Candidate)
    returns (fields': seq<string>, values': seq<JsValue>)
    requires fields == Fields(Clause(cs)) && values == Values(Clause(cs))
    ensures fields' == Fields(Clause(cs + [x])) && values' == Values(Clause(cs + [x]))
  {
    fields', values' := fields, values;
    if x.pushed {
      fields' := fields' + [Setter(x.column)];
      values' := values' + [x.value];
    }
    ClausePush(cs, x);
  }

  /** The value that the first assignment naming a column binds to it. */
  function Assigned(a: seq<Assignment>, column: Column): Option<JsValue>
  {
    if a == [] then None
    else
      var before := Assigned(a[..|a| - 1], column);
      if before.Some? then before
      else if a[|a| - 1].column == column then Some(a[|a| - 1].value)
      else None
  }

  lemma AssignedSnoc(a: seq<Assignment>, x: Assignment, c: Column)
    ensures Assigned(a + [x], c)
            == if Assigned(a, c).Some? then Assigned(a, c) else if x.column == c then Some(x.value) else None
  {
    assert (a + [x])[..|a|] == a;
  }

  /** A column that no candidate names is never set. */
  lemma {:induction false} AssignedAbsent(cs: seq<Candidate>, c: Column)
    requires forall j :: 0 <= j < |cs| ==> cs[j].column != c
    ensures Assigned(Clause(cs), c) == None
  {
    if cs != [] {
      var last := cs[|cs| - 1];
      AssignedAbsent(cs[..|cs| - 1], c);
      if last.pushed {
        AssignedSnoc(Clause(cs[..|cs| - 1]), Assignment(last.column, last.value), c);
      }
    }
  }

  /** A column that exactly one candidate names is set to that candidate's
      value when, and only when, it is pushed. */
  lemma {:induction false} AssignedUnique(cs: seq<Candidate>, k: nat, c: Column)
    requires k < |cs| && cs[k].column == c
    requires forall j :: 0 <= j < |cs| && j != k ==> cs[j].column != c
    ensures Assigned(Clause(cs), c) == if cs[k].pushed then Some(cs[k].value) else None
  {
    var last := cs[|cs| - 1];
    var before := cs[..|cs| - 1];
    if k == |cs| - 1 {
      AssignedAbsent(before, c);
    } else {
      AssignedUnique(before, k, c);
    }
    if last.pushed {
      AssignedSnoc(Clause(before), Assignment(last.column, last.value), c);
    }
  }

  /** The JSON body of PUT /api/auth/profile. */
  datatype ProfileBody = ProfileBody(firstName: JsValue, lastName: JsValue, email: JsValue, phone: JsValue,
                                     password: JsValue)

  /** A password that bcrypt can hash: absent (falsy) or a string. */
  predicate ValidProfilePassword(body: ProfileBody)
  {
    !Truthy(body.password) || body.password.Str?
  }

  /** The hash bound to `password_hash`, when a password is given. */
  function PasswordValue(password: JsValue, hash: string -> string): JsValue
  {
    if password.Str? then Str(hash(password.s)) else Null
  }

  /** The profile handler's candidates, in the handler's order: names and
      e-mail when truthy, the phone whenever it is not `undefined` (so an
      empty phone clears it), the password hash when a password is given. */
  function ProfileCandidates(body: ProfileBody, hash: string -> string): seq<Candidate>
  {
    [Candidate(Truthy(body.firstName), FirstName, body.firstName),
     Candidate(Truthy(body.lastName), LastName, body.lastName),
     Candidate(Truthy(body.email), Email, body.email),
     Candidate(!body.phone.Undefined?, Phone, body.phone),
     Candidate(Truthy(body.password), PasswordHash, PasswordValue(body.password, hash))]
  }

  /** The profile handler's SET clause. */
  function ProfileAssignments(body: ProfileBody, hash: string -> string): seq<Assignment>
  {
    Clause(ProfileCandidates(body, hash))
  }

  /** The profile handler's two lists, pushed one optional field at a
      time; `hashable` is false when a password is given that is not a string. */
  method ProfileLists(body: ProfileBody, hash: string -> string)
    returns (fields: seq<string>, values: seq<JsValue>, hashable: bool)
    ensures hashable <==> ValidProfilePassword(body)
    ensures hashable ==> fields == Fields(ProfileAssignments(body, hash)) && values == Values(ProfileAssignments(body, hash))
  {
    ghost var cs: seq<Candidate> := [];
    var x := Candidate(Truthy(body.firstName), FirstName, body.firstName);
    fields, values := PushField([], [], cs, x);
    cs := cs + [x];
    x := Candidate(Truthy(body.lastName), LastName, body.lastName);
    fields, values := PushField(fields, values, cs, x);
    cs := cs + [x];
    x := Candidate(Truthy(body.email), Email, body.email);
    fields, values := PushField(fields, values, cs, x);
    cs := cs + [x];
    x := Candidate(!body.phone.Undefined?, Phone, body.phone);
    fields, values := PushField(fields, values, cs, x);
    cs := cs + [x];
    if Truthy(body.password) && !body.password.Str? {
      // bcrypt refuses to hash a value that is not a string
      return [], [], false;
    }
    x := Candidate(Truthy(body.password), PasswordHash, PasswordValue(body.password, hash));
    fields, values := PushField(fields, values, cs, x);
    cs := cs + [x];
    assert cs == ProfileCandidates(body, hash);
    hashable := true;
  }

  /** Which columns the profile handler sets, and to what: each one exactly
      under its own condition; the user name, the role and the active flag never. */
  lemma ProfileColumns(body: ProfileBody, hash: string -> string, c: Column)
    requires ValidProfilePassword(body)
    ensures Assigned(ProfileAssignments(body, hash), c)
            == match c
               case FirstName => if Truthy(body.firstName) then Some(body.firstName) else None
               case LastName => if Truthy(body.lastName) then Some(body.lastName) else None
               case Email => if Truthy(body.email) then Some(body.email) else None
               case Phone => if body.phone.Undefined? then None else Some(body.phone)
               case PasswordHash => if Truthy(body.password) then Some(Str(hash(body.password.s))) else None
               case _ => None
  {
    var cs := ProfileCandidates(body, hash);
    match c
    case FirstName => AssignedUnique(cs, 0, c);
    case LastName => AssignedUnique(cs, 1, c);
    case Email => AssignedUnique(cs, 2, c);
    case Phone => AssignedUnique(cs, 3, c);
    case PasswordHash => AssignedUnique(cs, 4, c);
    case _ => AssignedAbsent(cs, c);
  }
}

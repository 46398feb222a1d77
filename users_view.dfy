/** The browser's users page: the user form (filled by `editUser`, checked
    and sent by `saveUser`), the role badge and the delete-button rule. */
module UsersView {
  import opened JsCore
  import UserRoutes

  /** The user form's fields as `saveUser` reads them; `userId` is the hidden
      id of the user being edited, `''` for a new one. */
  datatype UserForm = UserForm(userId: string, username: string, email: string, password: string,
                               firstName: string, lastName: string, role: string, phone: string,
                               isActive: bool)

  /** The request `saveUser` sends: the verb, the URL and the JSON body. */
  datatype Request = Request(verb: string, url: string, body: UserRoutes.UserBody)

  const UsersUrl: string := "/api/users"

  /** The body `saveUser` builds from the form: every text field as it is,
      except an empty phone, which is sent as `null`. */
  function FormBody(form: UserForm): (b: UserRoutes.UserBody)
    ensures b.username == Str(form.username) && b.email == Str(form.email) && b.password == Str(form.password)
    ensures b.firstName == Str(form.firstName) && b.lastName == Str(form.lastName) && b.role == Str(form.role)
    ensures Truthy(b.phone) <==> form.phone != ""
    ensures b.phone != Str("") && b.phone != Undefined
    ensures Truthy(b.isActive) <==> form.isActive
  {
    UserRoutes.UserBody(Str(form.username), Str(form.email), Str(form.password), Str(form.firstName),
                        Str(form.lastName), Str(form.role), if form.phone == "" then Null else Str(form.phone),
                        Bool(form.isActive))
  }

  /** `saveUser`: the form is refused (no request, status 0) when a marked
      field is empty, or when a new user has no password; otherwise it is a
      `PUT` to the user's URL when editing and a `POST` to the collection
      when creating. */
  function SaveUser(form: UserForm): (r: Result<Request>)
    ensures r.Ok? <==> form.username != "" && form.email != "" && form.firstName != "" && form.lastName != ""
                       && (form.userId == "" ==> form.password != "")
    ensures r.Ok? ==> (r.value.verb == "PUT" <==> form.userId != "") && r.value.body == FormBody(form)
    ensures r.Ok? && form.userId == "" ==> r.value.verb == "POST" && r.value.url == UsersUrl
    ensures r.Ok? && form.userId != "" ==> r.value.url == UsersUrl + "/" + form.userId
  {
    var isEdit := form.userId != "";
    if form.username == "" || form.email == "" || form.firstName == "" || form.lastName == "" then
      Fail(0, "Los campos marcados con * son requeridos")
    else if !isEdit && form.password == "" then
      Fail(0, "La contraseña es requerida para nuevos usuarios")
    else
      Ok(Request(if isEdit then "PUT" else "POST", UsersUrl + (if isEdit then "/" + form.userId else ""),
                 FormBody(form)))
  }

  /** A new user the page accepts also passes the server's required-field
      check: the page asks for the same five fields. */
  lemma CreateFormHasRequiredFields(form: UserForm, callerId: JsValue, taken: bool, hash: string -> string)
    requires SaveUser(form).Ok? && form.userId == ""
    ensures UserRoutes.CreateUser(callerId, Str("admin"), SaveUser(form).value.body, taken, hash).Fail?
            ==> UserRoutes.CreateUser(callerId, Str("admin"), SaveUser(form).value.body, taken, hash).status != 400
  {
  }

  /** A row of the users list as the page holds it; `None` is `null`. */
  datatype UserRow = UserRow(id: nat, username: Option<string>, email: Option<string>, firstName: Option<string>,
                             lastName: Option<string>, role: Option<string>, phone: Option<string>,
                             isActive: bool)

  /** `value || fallback` for a text field of a row. */
  function OrElse(v: Option<string>, fallback: string): (r: string)
    ensures v.Some? && v.value != "" ==> r == v.value
    ensures v.None? ==> r == fallback
    ensures v.Some? && v.value == "" ==> r == fallback
    ensures r == fallback || (v.Some? && r == v.value)
  {
    if v.Some? && v.value != "" then v.value else fallback
  }

  /** `editUser(id)`: the form filled from the row with that id (empty
      texts for missing fields, `worker` for a missing role), with the
      password field always cleared; an unknown id leaves the form as it is. */
  function EditUser(users: seq<UserRow>, id: nat, form: UserForm): (f: UserForm)
    ensures (exists u :: u in users && u.id == id) ==> f.password == "" && f.userId == DecimalString(id)
    ensures (exists u :: u in users && u.id == id) ==> f.role != ""
    ensures (forall u :: u in users ==> u.id != id) ==> f == form
  {
    if users == [] then form
    else if users[0].id == id then
      var u := users[0];
      UserForm(DecimalString(u.id), OrElse(u.username, ""), OrElse(u.email, ""), "", OrElse(u.firstName, ""),
               OrElse(u.lastName, ""), OrElse(u.role, "worker"), OrElse(u.phone, ""), u.isActive)
    else
      assert forall u :: u in users[1..] ==> u in users;
      assert forall u :: u in users && u != users[0] ==> u in users[1..] by {
        assert users == [users[0]] + users[1..];
      }
      EditUser(users[1..], id, form)
  }

  /** Saving an edited user whose names and e-mail are on record, without
      typing a password, sends an edit whose password the server ignores:
      the stored password is never replaced by an empty one. Ids are
      unique in the list. */
  lemma EditKeepsPassword(users: seq<UserRow>, u: UserRow, form: UserForm)
    requires u in users && forall v :: v in users && v.id == u.id ==> v == u
    requires OrElse(u.username, "") != "" && OrElse(u.email, "") != ""
    requires OrElse(u.firstName, "") != "" && OrElse(u.lastName, "") != ""
    ensures SaveUser(EditUser(users, u.id, form)).Ok?
    ensures SaveUser(EditUser(users, u.id, form)).value.verb == "PUT"
    ensures UserRoutes.CheckPassword(SaveUser(EditUser(users, u.id, form)).value.body.password) == UserRoutes.NoPassword
  {
    EditFilled(users, u.id, form);
    var f := EditUser(users, u.id, form);
    var k :| 0 <= k < |users| && users[k].id == u.id && FilledFrom(f, users[k]);
    assert users[k] in users;
    assert f.userId != "" && f.password == "";
  }

  /** The form as `editUser` fills it from row `u`: the id in decimal, each
      text field or `''` when missing or empty, the role or `worker`, the
      active flag as it is, and an empty password. */
  predicate FilledFrom(f: UserForm, u: UserRow)
  {
    && f.userId == DecimalString(u.id) && f.password == ""
    && f.username == OrElse(u.username, "") && f.email == OrElse(u.email, "")
    && f.firstName == OrElse(u.firstName, "") && f.lastName == OrElse(u.lastName, "")
    && f.role == OrElse(u.role, "worker") && f.phone == OrElse(u.phone, "") && f.isActive == u.isActive
  }

  /** The form `editUser` fills comes from the first row with the id. */
  lemma {:induction false} EditFilled(users: seq<UserRow>, id: nat, form: UserForm)
    requires exists u :: u in users && u.id == id
    ensures exists k :: 0 <= k < |users| && users[k].id == id && FilledFrom(EditUser(users, id, form), users[k])
              && forall j :: 0 <= j < k ==> users[j].id != id
  {
    if users[0].id != id {
      assert exists u :: u in users[1..] && u.id == id by {
        var u :| u in users && u.id == id;
        assert users == [users[0]] + users[1..];
        assert u in users[1..];
      }
      EditFilled(users[1..], id, form);
      var k :| 0 <= k < |users[1..]| && users[1..][k].id == id
               && FilledFrom(EditUser(users[1..], id, form), users[1..][k])
               && forall j :: 0 <= j < k ==> users[1..][j].id != id;
      assert users[k + 1] == users[1..][k];
    } else {
      assert users[0] in users;
    }
  }

  const RoleBadges: map<string, string> :=
    map["admin" := "bg-danger", "manager" := "bg-warning", "supervisor" := "bg-info", "worker" := "bg-secondary"]

  /** `classMap[role] || 'bg-secondary'`. */
  function RoleBadgeClass(role: string): (r: string)
    ensures role in RoleBadges ==> r == RoleBadges[role]
    ensures role !in RoleBadges ==> r == "bg-secondary"
  {
    LookupOr(RoleBadges, role, "bg-secondary")
  }

  /** `user.id !== app.currentUser?.id`: with nobody signed in every row has
      the button. */
  predicate ShowDeleteButton(userId: nat, currentUser: Option<nat>)
  {
    currentUser.None? || userId != currentUser.value
  }

  /** The rows of a rendered list that carry a delete button. */
  function DeletableRows(users: seq<UserRow>, currentUser: Option<nat>): (r: seq<UserRow>)
    ensures |r| <= |users|
    ensures forall i :: 0 <= i < |r| ==> r[i] in users && ShowDeleteButton(r[i].id, currentUser)
  {
    if users == [] then []
    else
      var last := users[|users| - 1];
      var before := DeletableRows(users[..|users| - 1], currentUser);
      if ShowDeleteButton(last.id, currentUser) then before + [last] else before
  }

  /** Every user except the signed-in one can be deleted from the list. */
  lemma {:induction false} DeleteButtonForOthers(users: seq<UserRow>, currentUser: Option<nat>, u: UserRow)
    requires u in users
    ensures u in DeletableRows(users, currentUser) <==> currentUser.None? || u.id != currentUser.value
  {
    var init := users[..|users| - 1];
    assert users == init + [users[|users| - 1]];
    if users[|users| - 1] != u {
      DeleteButtonForOthers(init, currentUser, u);
    }
  }
}

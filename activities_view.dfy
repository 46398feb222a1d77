/** The browser's activities page helpers: the activity form's validation,
    the request it sends, and the status table. The page's
    `formatDateForInput`, `getProgressBarClass`, priority table and
    description line are the same code as the projects page's and are
    modelled there (`ProjectsView`). */
module ActivitiesView {
  import opened JsCore

  /** The form values `saveActivity` checks: the selected project, the name
      and the hidden id of the activity being edited (`''` for a new one). */
  datatype ActivityForm = ActivityForm(projectId: string, name: string, activityId: string)

  /** The request `saveActivity` sends. */
  datatype Request = Request(verb: string, url: string)

  const ActivitiesUrl: string := "/api/activities"

  /** `saveActivity`: the notification (no request, status 0) when the project or the name is
      missing; otherwise a `PUT` to the activity's URL when an id is set,
      and a `POST` to the collection otherwise. */
  function SaveActivity(form: ActivityForm): (r: Result<Request>)
    ensures r.Fail? <==> form.projectId == "" || form.name == ""
    ensures r.Ok? ==> (r.value.verb == "PUT" <==> form.activityId != "")
    ensures r.Ok? ==> r.value.verb == "PUT" || r.value.verb == "POST"
    ensures r.Ok? && r.value.verb == "POST" ==> r.value.url == ActivitiesUrl
    ensures r.Ok? && r.value.verb == "PUT" ==>
              |r.value.url| > |ActivitiesUrl| + 1 && r.value.url[..|ActivitiesUrl| + 1] == ActivitiesUrl + "/"
  {
    if form.projectId == "" || form.name == "" then
      Fail(0, "Proyecto y nombre de actividad son requeridos")
    else
      var isEdit := form.activityId != "";
      var url := ActivitiesUrl + (if isEdit then "/" + form.activityId else "");
      assert isEdit ==> url[..|ActivitiesUrl| + 1] == ActivitiesUrl + "/";
      Ok(Request(if isEdit then "PUT" else "POST", url))
  }

  /** The id of the activity an edit request is sent for: the text after
      the collection's URL and its slash. */
  function EditedId(req: Request): (id: string)
    requires |req.url| > |ActivitiesUrl|
  {
    req.url[|ActivitiesUrl| + 1..]
  }

  /** An edit goes to the activity being edited: its id is read back from
      the URL, so two different activities never share a request. */
  lemma EditTargetsActivity(form: ActivityForm)
    requires form.projectId != "" && form.name != "" && form.activityId != ""
    ensures SaveActivity(form).Ok? && |SaveActivity(form).value.url| > |ActivitiesUrl|
    ensures EditedId(SaveActivity(form).value) == form.activityId
  {
    var url := SaveActivity(form).value.url;
    assert url == ActivitiesUrl + "/" + form.activityId;
    assert url[|ActivitiesUrl| + 1..] == form.activityId;
  }

  const ActivityStatusNames: map<string, string> :=
    map["pending" := "Pendiente", "in_progress" := "En Progreso", "completed" := "Completada",
        "cancelled" := "Cancelada", "on_hold" := "En Pausa"]

  /** `getActivityStatusText`: `statusMap[status] || status`. */
  function ActivityStatusText(status: string): (r: string)
    ensures status in ActivityStatusNames ==> r == ActivityStatusNames[status]
    ensures status !in ActivityStatusNames ==> r == status
  {
    LookupOr(ActivityStatusNames, status, status)
  }
}

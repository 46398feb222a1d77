/** The single-page application object of the browser front end: the
    status filters over the project and activity lists, the rule that
    switching sections drops them, the users-section gate, and its pure
    helpers (currency input clean-up and the display-name tables). */
module AppView {
  import opened JsCore

  /** A project or activity row as the lists hold it; only the status takes
      part in the filters. */
  datatype Row = Row(id: int, name: string, status: string)

  /** `rows.filter(r => r.status === status)`. */
  function WithStatus(rows: seq<Row>, status: string): (r: seq<Row>)
    ensures |r| <= |rows|
    ensures forall i :: 0 <= i < |r| ==> r[i].status == status
  {
    if rows == [] then []
    else if rows[|rows| - 1].status == status then WithStatus(rows[..|rows| - 1], status) + [rows[|rows| - 1]]
    else WithStatus(rows[..|rows| - 1], status)
  }

  /** The filter keeps every matching row as often as it occurs and drops
      every other row. */
  lemma {:induction false} WithStatusCounts(rows: seq<Row>, status: string, x: Row)
    ensures multiset(WithStatus(rows, status))[x] == if x.status == status then multiset(rows)[x] else 0
  {
    if rows != [] {
      WithStatusCounts(rows[..|rows| - 1], status, x);
      assert rows == rows[..|rows| - 1] + [rows[|rows| - 1]];
    }
  }

  /** The filter keeps the relative order: filtering a concatenation is the
      concatenation of the filtered parts. */
  lemma {:induction false} WithStatusAppend(a: seq<Row>, b: seq<Row>, status: string)
    ensures WithStatus(a + b, status) == WithStatus(a, status) + WithStatus(b, status)
  {
    if b != [] {
      WithStatusAppend(a, b[..|b| - 1], status);
      assert (a + b)[..|a + b| - 1] == a + b[..|b| - 1];
    } else {
      assert a + b == a;
    }
  }

  /** Filtering twice by the same status changes nothing more. */
  lemma {:induction false} WithStatusIdempotent(rows: seq<Row>, status: string)
    ensures WithStatus(WithStatus(rows, status), status) == WithStatus(rows, status)
  {
    if rows != [] {
      var init := rows[..|rows| - 1];
      WithStatusIdempotent(init, status);
      if rows[|rows| - 1].status == status {
        WithStatusAppend(WithStatus(init, status), [rows[|rows| - 1]], status);
        assert WithStatus([rows[|rows| - 1]], status) == [rows[|rows| - 1]] by {
          assert [rows[|rows| - 1]][..0] == [];
        }
      }
    }
  }

  /** A list on screen and the copy saved by the first filter (`null` when
      no filter is active). */
  datatype ListFilter = ListFilter(shown: seq<Row>, saved: Option<seq<Row>>)

  /** The list the filters start from: the saved copy, or the list on
      screen when nothing is saved yet. */
  function Original(f: ListFilter): seq<Row>
  {
    if f.saved.Some? then f.saved.value else f.shown
  }

  /** `filterProjectsByStatus` / `filterActivitiesByStatus`: save the list
      if nothing is saved yet, then show the saved rows with that status. */
  function ApplyFilter(f: ListFilter, status: string): (g: ListFilter)
    ensures g.saved == Some(Original(f))
    ensures g.shown == WithStatus(Original(f), status)
  {
    var original := if f.saved.Some? then f.saved.value else f.shown;
    ListFilter(WithStatus(original, status), Some(original))
  }

  /** `clearFilter` on one list: show the saved copy again and forget it;
      with nothing saved, nothing changes. */
  function ClearSaved(f: ListFilter): (g: ListFilter)
    ensures g.saved.None?
    ensures g.shown == Original(f)
    ensures f.saved.None? ==> g == f
  {
    match f.saved
    case None => f
    case Some(original) => ListFilter(original, None)
  }

  /** A second filter starts from the same saved copy: two filters in a row
      are the second one alone. */
  lemma FilterTwice(f: ListFilter, first: string, second: string)
    ensures ApplyFilter(ApplyFilter(f, first), second) == ApplyFilter(f, second)
  {
  }

  /** Filtering and then clearing restores the list that was on screen
      before the first filter. */
  lemma FilterThenClear(f: ListFilter, status: string)
    requires f.saved.None?
    ensures ClearSaved(ApplyFilter(f, status)) == f
  {
  }

  /** Clearing twice is clearing once. */
  lemma ClearIdempotent(f: ListFilter)
    ensures ClearSaved(ClearSaved(f)) == ClearSaved(f)
  {
  }

  /** The application object: the current section, and the project and
      activity lists (the globals `projectsData` and `currentActivities`)
      with their saved copies. */
  class ConstructionApp {
    var currentSection: string
    var projects: ListFilter
    var activities: ListFilter

    constructor()
      ensures currentSection == "dashboard"
      ensures projects == ListFilter([], None) && activities == ListFilter([], None)
    {
      currentSection := "dashboard";
      projects := ListFilter([], None);
      activities := ListFilter([], None);
    }

    method FilterProjectsByStatus(status: string)
      modifies this
      ensures projects == ApplyFilter(old(projects), status)
      ensures activities == old(activities) && currentSection == old(currentSection)
    {
      if projects.saved.None? {
        projects := projects.(saved := Some(projects.shown));
      }
      projects := projects.(shown := WithStatus(projects.saved.value, status));
    }

    method FilterActivitiesByStatus(status: string)
      modifies this
      ensures activities == ApplyFilter(old(activities), status)
      ensures projects == old(projects) && currentSection == old(currentSection)
    {
      if activities.saved.None? {
        activities := activities.(saved := Some(activities.shown));
      }
      activities := activities.(shown := WithStatus(activities.saved.value, status));
    }

    /** `clearFilter(section)`: only the named list; any other name is ignored. */
    method ClearFilter(section: string)
      modifies this
      ensures projects == if section == "projects" then ClearSaved(old(projects)) else old(projects)
      ensures activities == if section == "activities" then ClearSaved(old(activities)) else old(activities)
      ensures currentSection == old(currentSection)
    {
      if section == "projects" {
        if projects.saved.Some? {
          projects := ListFilter(projects.saved.value, None);
        }
      } else if section == "activities" {
        if activities.saved.Some? {
          activities := ListFilter(activities.saved.value, None);
        }
      }
    }

    method ClearAllFilters()
      modifies this
      ensures projects == ClearSaved(old(projects)) && activities == ClearSaved(old(activities))
      ensures currentSection == old(currentSection)
    {
      if projects.saved.Some? {
        projects := ListFilter(projects.saved.value, None);
      }
      if activities.saved.Some? {
        activities := ListFilter(activities.saved.value, None);
      }
    }

    /** `showSection(name)`: the filters are dropped only when the section
      changes, the section becomes `name`, and its content is loaded. Of the
      loaders only the users check is modelled: with `role` neither admin nor
      manager, showing `users` ends on the dashboard. */
    method ShowSection(name: string, role: string)
      modifies this
      decreases if name == "users" then 2 else 0
      ensures UsersRedirect(name, role) ==> currentSection == "dashboard"
      ensures !UsersRedirect(name, role) ==> currentSection == name
      ensures UsersRedirect(name, role) || old(currentSection) != name ==>
                projects == ClearSaved(old(projects)) && activities == ClearSaved(old(activities))
      ensures !UsersRedirect(name, role) && old(currentSection) == name ==>
                projects == old(projects) && activities == old(activities)
    {
      if currentSection != name {
        ClearAllFilters();
      }
      currentSection := name;
      if name == "users" {
        var loaded := LoadUsers(role);
        if !loaded {
          ClearIdempotent(old(projects));
          ClearIdempotent(old(activities));
        }
      }
    }

    /** `loadUsers`: only an admin or a manager gets the users list; anyone
      else is sent back to the dashboard. */
    method LoadUsers(role: string) returns (loaded: bool)
      modifies this
      decreases 1
      ensures loaded <==> MayListUsers(role)
      ensures loaded ==> currentSection == old(currentSection) && projects == old(projects)
                         && activities == old(activities)
      ensures !loaded ==> currentSection == "dashboard"
      ensures !loaded && old(currentSection) != "dashboard" ==>
                projects == ClearSaved(old(projects)) && activities == ClearSaved(old(activities))
      ensures !loaded && old(currentSection) == "dashboard" ==>
                projects == old(projects) && activities == old(activities)
    {
      if !MayListUsers(role) {
        ShowSection("dashboard", role);
        return false;
      }
      return true;
    }
  }

  /** Showing `users` to a role other than admin or manager is redirected. */
  predicate UsersRedirect(name: string, role: string)
  {
    name == "users" && !MayListUsers(role)
  }

  /** The roles that see the users section. */
  predicate MayListUsers(role: string)
  {
    role == "admin" || role == "manager"
  }

  /** `value.replace(/[^\d]/g, '')`, and `''` for an empty value: the
      digits of the input, in order. */
  function ParseCurrency(value: string): (r: string)
    ensures |r| <= |value|
    ensures forall i :: 0 <= i < |r| ==> IsDigit(r[i])
  {
    if value == [] then ""
    else if IsDigit(value[|value| - 1]) then ParseCurrency(value[..|value| - 1]) + [value[|value| - 1]]
    else ParseCurrency(value[..|value| - 1])
  }

  /** Cleaning a concatenation cleans each part: the digits keep their order. */
  lemma {:induction false} ParseCurrencyAppend(a: string, b: string)
    ensures ParseCurrency(a + b) == ParseCurrency(a) + ParseCurrency(b)
  {
    if b != [] {
      ParseCurrencyAppend(a, b[..|b| - 1]);
      assert (a + b)[..|a + b| - 1] == a + b[..|b| - 1];
    } else {
      assert a + b == a;
    }
  }

  /** A string of digits is left as it is; in particular cleaning twice is
      cleaning once. */
  lemma {:induction false} ParseCurrencyDigits(value: string)
    requires forall i :: 0 <= i < |value| ==> IsDigit(value[i])
    ensures ParseCurrency(value) == value
  {
    if value != [] {
      ParseCurrencyDigits(value[..|value| - 1]);
    }
  }

  lemma ParseCurrencyIdempotent(value: string)
    ensures ParseCurrency(ParseCurrency(value)) == ParseCurrency(value)
  {
    ParseCurrencyDigits(ParseCurrency(value));
  }

  /** Every digit of the input survives, as often as it occurs. */
  lemma {:induction false} ParseCurrencyCounts(value: string, c: char)
    ensures multiset(ParseCurrency(value))[c] == if IsDigit(c) then multiset(value)[c] else 0
  {
    if value != [] {
      ParseCurrencyCounts(value[..|value| - 1], c);
      assert value == value[..|value| - 1] + [value[|value| - 1]];
    }
  }

  const StatusNames: map<string, string> :=
    map["pending" := "Pendiente", "in_progress" := "En Progreso", "completed" := "Completado",
        "cancelled" := "Cancelado", "on_hold" := "En Pausa", "planning" := "Planificación"]

  const SupplierTypeNames: map<string, string> :=
    map["materials" := "Materiales", "equipment" := "Equipos", "services" := "Servicios",
        "subcontractor" := "Subcontratista"]

  const RoleNames: map<string, string> :=
    map["admin" := "Administrador", "manager" := "Gerente", "supervisor" := "Supervisor", "worker" := "Trabajador"]

  /** `statusMap[status] || status`. */
  function StatusText(status: string): (r: string)
    ensures status in StatusNames ==> r == StatusNames[status]
    ensures status !in StatusNames ==> r == status
  {
    LookupOr(StatusNames, status, status)
  }

  /** `typeMap[type] || type`. */
  function SupplierTypeText(kind: string): (r: string)
    ensures kind in SupplierTypeNames ==> r == SupplierTypeNames[kind]
    ensures kind !in SupplierTypeNames ==> r == kind
  {
    LookupOr(SupplierTypeNames, kind, kind)
  }

  /** `roleMap[role] || role`. */
  function RoleText(role: string): (r: string)
    ensures role in RoleNames ==> r == RoleNames[role]
    ensures role !in RoleNames ==> r == role
  {
    LookupOr(RoleNames, role, role)
  }

  /** Every display name differs from its key, so a text equal to its input
      marks an unknown key. */
  lemma UnknownIffUnchanged(status: string, kind: string, role: string)
    ensures StatusText(status) == status <==> status !in StatusNames
    ensures SupplierTypeText(kind) == kind <==> kind !in SupplierTypeNames
    ensures RoleText(role) == role <==> role !in RoleNames
  {
  }
}

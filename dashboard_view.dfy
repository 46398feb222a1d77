/** The browser's dashboard: the statistics computed from the project,
    activity and file lists, the recent and overdue activity lists, the
    project progress chart and the dashboard's status table. */
module DashboardView {
  import opened JsCore
  import ProjectsView

  /** A project or activity record as the dashboard reads it: the name
      (`None` for `null`), the status, the progress percentage (`None` for
      `null`) and the end date as a timestamp (`None` when missing). */
  datatype Item = Item(name: Option<string>, status: string, progress: Option<real>, endDate: Option<int>)

  /** `items.filter(x => x.status === status).length`. */
  function CountStatus(items: seq<Item>, status: string): (n: nat)
    ensures n <= |items|
  {
    if items == [] then 0
    else CountStatus(items[..|items| - 1], status) + if items[|items| - 1].status == status then 1 else 0
  }

  /** Counts of three different statuses never add up to more than the list. */
  lemma {:induction false} StatusCountsBounded(items: seq<Item>, a: string, b: string, c: string)
    requires a != b && b != c && a != c
    ensures CountStatus(items, a) + CountStatus(items, b) + CountStatus(items, c) <= |items|
  {
    if items != [] {
      StatusCountsBounded(items[..|items| - 1], a, b, c);
    }
  }

  /** `p.progress_percentage || 0`. */
  function Progress(item: Item): real
  {
    if item.progress.Some? then item.progress.value else 0.0
  }

  function SumProgress(items: seq<Item>): real
  {
    if items == [] then 0.0 else SumProgress(items[..|items| - 1]) + Progress(items[|items| - 1])
  }

  /** Percentages between 0 and 100 add up to between 0 and 100 per item. */
  lemma {:induction false} SumProgressBounds(items: seq<Item>)
    requires forall i :: 0 <= i < |items| ==> 0.0 <= Progress(items[i]) <= 100.0
    ensures 0.0 <= SumProgress(items) <= 100.0 * |items| as real
  {
    if items != [] {
      SumProgressBounds(items[..|items| - 1]);
    }
  }

  /** The average progress, and 0 without projects (exact arithmetic). */
  function AverageProgress(projects: seq<Item>): (avg: real)
    ensures projects == [] ==> avg == 0.0
    ensures (forall i :: 0 <= i < |projects| ==> 0.0 <= Progress(projects[i]) <= 100.0) ==> 0.0 <= avg <= 100.0
  {
    if |projects| > 0 then
      if forall i :: 0 <= i < |projects| ==> 0.0 <= Progress(projects[i]) <= 100.0 then
        SumProgressBounds(projects);
        AverageBounds(SumProgress(projects), |projects|);
        SumProgress(projects) / |projects| as real
      else SumProgress(projects) / |projects| as real
    else 0.0
  }

  /** Dividing a sum of percentages by their number gives a percentage. */
  lemma AverageBounds(sum: real, n: nat)
    requires n > 0 && 0.0 <= sum <= 100.0 * n as real
    ensures 0.0 <= sum / n as real <= 100.0
  {
    var q := sum / n as real;
    assert q * n as real == sum;
    if q > 100.0 {
      assert q * n as real > 100.0 * n as real;
    }
  }

  /** `a.end_date && new Date(a.end_date) < new Date() && a.status !== 'completed'`. */
  predicate IsOverdue(a: Item, now: int)
  {
    a.endDate.Some? && a.endDate.value < now && a.status != "completed"
  }

  /** All overdue activities, in list order. */
  function OverdueAll(activities: seq<Item>, now: int): (r: seq<Item>)
    ensures |r| <= |activities|
    ensures forall i :: 0 <= i < |r| ==> IsOverdue(r[i], now) && r[i] in activities
  {
    if activities == [] then []
    else
      var last := activities[|activities| - 1];
      if IsOverdue(last, now) then OverdueAll(activities[..|activities| - 1], now) + [last]
      else OverdueAll(activities[..|activities| - 1], now)
  }

  /** Every overdue activity is selected, and only those. */
  lemma {:induction false} OverdueAllKeeps(activities: seq<Item>, now: int, a: Item)
    ensures a in OverdueAll(activities, now) <==> a in activities && IsOverdue(a, now)
  {
    if activities != [] {
      OverdueAllKeeps(activities[..|activities| - 1], now, a);
      assert activities == activities[..|activities| - 1] + [activities[|activities| - 1]];
    }
  }

  /** The statistics object of `loadBasicDashboardData`. */
  datatype DashboardData = DashboardData(
    totalProjects: nat, activeProjects: nat, completedProjects: nat, avgProgress: real,
    totalActivities: nat, pendingActivities: nat, activeActivities: nat, completedActivities: nat,
    totalFiles: nat, recent: seq<Item>, overdue: seq<Item>)

  /** `loadBasicDashboardData` from the three fetched lists and the current
      time. */
  function BasicDashboardData(projects: seq<Item>, activities: seq<Item>, files: nat, now: int): (d: DashboardData)
    ensures d.totalProjects == |projects| && d.totalActivities == |activities| && d.totalFiles == files
    ensures d.activeProjects == CountStatus(projects, "in_progress")
    ensures d.completedProjects == CountStatus(projects, "completed")
    ensures d.pendingActivities == CountStatus(activities, "pending")
    ensures d.activeActivities == CountStatus(activities, "in_progress")
    ensures d.completedActivities == CountStatus(activities, "completed")
    ensures d.activeProjects + d.completedProjects <= d.totalProjects
    ensures d.pendingActivities + d.activeActivities + d.completedActivities <= d.totalActivities
    ensures projects == [] ==> d.avgProgress == 0.0
    ensures |d.recent| <= 5 && |d.recent| <= |activities| && d.recent == activities[..|d.recent|]
    ensures |activities| >= 5 ==> |d.recent| == 5
    ensures d.recent == activities[..if |activities| < 5 then |activities| else 5]
    ensures d.overdue == Take(OverdueAll(activities, now), 5)
    ensures |d.overdue| <= 5
    ensures forall i :: 0 <= i < |d.overdue| ==> d.overdue[i] in activities && IsOverdue(d.overdue[i], now)
  {
    StatusCountsBounded(projects, "in_progress", "completed", "pending");
    StatusCountsBounded(activities, "pending", "in_progress", "completed");
    DashboardData(
      |projects|, CountStatus(projects, "in_progress"), CountStatus(projects, "completed"), AverageProgress(projects),
      |activities|, CountStatus(activities, "pending"), CountStatus(activities, "in_progress"),
      CountStatus(activities, "completed"),
      files, Take(activities, 5), Take(OverdueAll(activities, now), 5))
  }

  /** With at most five overdue activities, the dashboard lists every one. */
  lemma OverdueComplete(projects: seq<Item>, activities: seq<Item>, files: nat, now: int, a: Item)
    requires |OverdueAll(activities, now)| <= 5
    requires a in activities && IsOverdue(a, now)
    ensures a in BasicDashboardData(projects, activities, files, now).overdue
  {
    OverdueAllKeeps(activities, now, a);
  }

  /** A chart label: names over 20 characters are cut to 20 with `...`, and
      a missing or empty name reads `Sin nombre`. */
  function ChartLabel(name: Option<string>): (r: string)
    ensures name.None? || name.value == "" ==> r == "Sin nombre"
    ensures name.Some? && 0 < |name.value| <= 20 ==> r == name.value
    ensures name.Some? && |name.value| > 20 ==> |r| == 23 && r[..20] == name.value[..20] && r[20..] == "..."
  {
    if name.Some? && |name.value| > 20 then Truncated(name.value, 20)
    else if name.Some? && name.value != "" then name.value
    else "Sin nombre"
  }

  const Green: string := "#198754"
  const Yellow: string := "#ffc107"
  const Orange: string := "#fd7e14"
  const Red: string := "#dc3545"

  /** The bar colour for a progress value. */
  function ChartColor(progress: real): (r: string)
    ensures r == Green <==> progress >= 80.0
    ensures r == Yellow <==> 50.0 <= progress < 80.0
    ensures r == Orange <==> 25.0 <= progress < 50.0
    ensures r == Red <==> progress < 25.0
  {
    if progress >= 80.0 then Green
    else if progress >= 50.0 then Yellow
    else if progress >= 25.0 then Orange
    else Red
  }

  /** The chart's colours follow the same bands as the projects page's
      progress bars. */
  lemma ColorMatchesBar(progress: real)
    ensures ChartColor(progress) == Green <==> ProjectsView.ProgressBarClass(progress) == "bg-success"
    ensures ChartColor(progress) == Yellow <==> ProjectsView.ProgressBarClass(progress) == "bg-info"
    ensures ChartColor(progress) == Orange <==> ProjectsView.ProgressBarClass(progress) == "bg-warning"
    ensures ChartColor(progress) == Red <==> ProjectsView.ProgressBarClass(progress) == "bg-danger"
  {
  }

  /** The bars of the progress chart: labels, values and colours. */
  datatype Chart = Chart(labels: seq<string>, data: seq<real>, colors: seq<string>)

  /** `updateProjectProgressChart(projects)`: a placeholder for an empty
      list, then the first ten projects. */
  function ProgressChart(projects: seq<Item>): (c: Chart)
    ensures 1 <= |c.labels| <= 10 && |c.data| == |c.labels| && |c.colors| == |c.labels|
    ensures projects == [] ==> c == Chart(["Sin datos"], [0.0], [Red])
    ensures projects != [] ==> |c.labels| == if |projects| < 10 then |projects| else 10
    ensures projects != [] ==> forall i :: 0 <= i < |c.labels| ==>
              c.labels[i] == ChartLabel(projects[i].name) && c.data[i] == Progress(projects[i])
    ensures forall i :: 0 <= i < |c.colors| ==> c.colors[i] == ChartColor(c.data[i])
  {
    var shown := Take(if projects == [] then [Item(Some("Sin datos"), "", Some(0.0), None)] else projects, 10);
    Chart(seq(|shown|, i requires 0 <= i < |shown| => ChartLabel(shown[i].name)),
          seq(|shown|, i requires 0 <= i < |shown| => Progress(shown[i])),
          seq(|shown|, i requires 0 <= i < |shown| => ChartColor(Progress(shown[i]))))
  }

  const DashboardStatusNames: map<string, string> :=
    map["pending" := "Pendiente", "in_progress" := "En Progreso", "completed" := "Completada",
        "cancelled" := "Cancelada"]

  /** The dashboard's `getStatusText`: `statusMap[status] || 'Desconocido'`. */
  function DashboardStatusText(status: string): (r: string)
    ensures status in DashboardStatusNames ==> r == DashboardStatusNames[status]
    ensures status !in DashboardStatusNames ==> r == "Desconocido"
  {
    LookupOr(DashboardStatusNames, status, "Desconocido")
  }
}

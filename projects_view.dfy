/** The browser's projects page helpers: the date normalisation for the
    edit form, the progress-bar class, the description line, the status and
    priority tables and the budget difference of the details view. */
module ProjectsView {
  import opened JsCore

  /** `/^\d{4}-\d{2}-\d{2}$/`: four digits, a dash, two digits, a dash, two
      digits, and nothing else. */
  predicate IsDateShape(s: string)
  {
    |s| == 10 && s[4] == '-' && s[7] == '-'
    && forall i :: 0 <= i < 10 && i != 4 && i != 7 ==> IsDigit(s[i])
  }

  /** `s.split(c)[0]`: everything before the first `c`, or all of `s`. */
  function BeforeFirst(s: string, c: char): (r: string)
    ensures |r| <= |s| && r == s[..|r|]
    ensures c !in r
    ensures |r| < |s| ==> s[|r|] == c
    ensures c !in s ==> r == s
  {
    if s == [] then ""
    else if s[0] == c then ""
    else
      var rest := BeforeFirst(s[1..], c);
      assert s == [s[0]] + s[1..];
      [s[0]] + rest
  }

  /** `formatDateForInput(dateString)`; `None` as the argument stands for
      `null`/`undefined`, and `None` as the result for the `new Date(...)`
      fallback, which is not part of this model. */
  function FormatDateForInput(dateString: Option<string>): (r: Option<string>)
    ensures dateString.None? || dateString.value == "" ==> r == Some("")
    ensures dateString.Some? && IsDateShape(dateString.value) ==> r == dateString
    ensures dateString.Some? && dateString.value != "" && !IsDateShape(dateString.value) && 'T' in dateString.value ==>
              r.Some? && 'T' !in r.value && |r.value| < |dateString.value|
              && dateString.value[..|r.value| + 1] == r.value + "T"
    ensures r.None? <==> dateString.Some? && dateString.value != "" && !IsDateShape(dateString.value)
                         && 'T' !in dateString.value
  {
    match dateString
    case None => Some("")
    case Some(s) =>
      if s == "" then Some("")
      else if IsDateShape(s) then Some(s)
      else if 'T' in s then
        var r := BeforeFirst(s, 'T');
        assert s[..|r| + 1] == s[..|r|] + [s[|r|]];
        Some(r)
      else None
  }

  /** A timestamp `YYYY-MM-DDT...` gives its date, and a date is kept: the
      form field ends up holding the date, and normalising it again keeps it. */
  lemma TimestampDate(date: string, time: string)
    requires IsDateShape(date)
    ensures FormatDateForInput(Some(date + "T" + time)) == Some(date)
    ensures FormatDateForInput(FormatDateForInput(Some(date + "T" + time))) == Some(date)
  {
    var s := date + "T" + time;
    assert s[10] == 'T';
    assert 'T' !in date by {
      assert forall i :: 0 <= i < 10 ==> date[i] != 'T';
    }
    var r := BeforeFirst(s, 'T');
    assert s[..|r| + 1] == r + "T";
    assert forall i :: 0 <= i < 10 ==> s[i] == date[i] && s[i] != 'T';
    assert |r| == 10;
    assert r == date by {
      assert r == s[..10];
    }
  }

  /** The class of a progress bar for a percentage. */
  function ProgressBarClass(percentage: real): (r: string)
    ensures r == "bg-success" <==> percentage >= 80.0
    ensures r == "bg-info" <==> 50.0 <= percentage < 80.0
    ensures r == "bg-warning" <==> 25.0 <= percentage < 50.0
    ensures r == "bg-danger" <==> percentage < 25.0
  {
    if percentage >= 80.0 then "bg-success"
    else if percentage >= 50.0 then "bg-info"
    else if percentage >= 25.0 then "bg-warning"
    else "bg-danger"
  }

  /** The bar classes from the worst (0) to the best (3). */
  function BarRank(cls: string): nat
  {
    if cls == "bg-success" then 3 else if cls == "bg-info" then 2 else if cls == "bg-warning" then 1 else 0
  }

  /** More progress never gives a worse class. */
  lemma ProgressBarMonotone(p: real, q: real)
    requires p <= q
    ensures BarRank(ProgressBarClass(p)) <= BarRank(ProgressBarClass(q))
  {
  }

  /** The description under a project's (or an activity's) name: nothing
      when there is none, otherwise its first 50 characters, with `...` when
      it was longer; shortening it again changes nothing. */
  function DescriptionLine(description: Option<string>): (r: string)
    ensures |r| <= 53
    ensures description.None? ==> r == ""
    ensures description.Some? && |description.value| <= 50 ==> r == description.value
    ensures description.Some? && |description.value| > 50 ==>
              |r| == 53 && r[..50] == description.value[..50] && r[50..] == "..."
    ensures Truncated(r, 50) == r
  {
    if description.None? || description.value == "" then ""
    else
      TruncatedIdempotent(description.value, 50);
      Truncated(description.value, 50)
  }

  const ProjectStatusNames: map<string, string> :=
    map["planning" := "Planificación", "in_progress" := "En Progreso", "on_hold" := "En Pausa",
        "completed" := "Completado", "cancelled" := "Cancelado"]

  const PriorityNames: map<string, string> :=
    map["low" := "Baja", "medium" := "Media", "high" := "Alta", "critical" := "Crítica"]

  /** `getProjectStatusText`: `statusMap[status] || status`. */
  function ProjectStatusText(status: string): (r: string)
    ensures status in ProjectStatusNames ==> r == ProjectStatusNames[status]
    ensures status !in ProjectStatusNames ==> r == status
  {
    LookupOr(ProjectStatusNames, status, status)
  }

  /** `getPriorityText`: `priorityMap[priority] || priority`. */
  function PriorityText(priority: string): (r: string)
    ensures priority in PriorityNames ==> r == PriorityNames[priority]
    ensures priority !in PriorityNames ==> r == priority
  {
    LookupOr(PriorityNames, priority, priority)
  }

  /** A known key is always shown translated, so a text equal to its key
      marks an unknown key. */
  lemma ProjectTextsUnknownIffUnchanged(status: string, priority: string)
    ensures ProjectStatusText(status) == status <==> status !in ProjectStatusNames
    ensures PriorityText(priority) == priority <==> priority !in PriorityNames
  {
  }

  /** `amount || 0` for a budget figure; `None` is `null`. */
  function Amount(figure: Option<real>): real
  {
    if figure.Some? then figure.value else 0.0
  }

  /** The "Diferencia" box of the details view: the amount left and whether
      it is shown as a success. */
  datatype BudgetLine = BudgetLine(difference: real, success: bool)

  function Budget(estimated: Option<real>, actual: Option<real>): (b: BudgetLine)
    ensures b.success <==> b.difference >= 0.0
    ensures b.difference + Amount(actual) == Amount(estimated)
  {
    BudgetLine(Amount(estimated) - Amount(actual), Amount(actual) <= Amount(estimated))
  }

  /** A project without figures is on budget with nothing left; spending
      more only lowers the difference. */
  lemma BudgetFacts(estimated: Option<real>, actual: Option<real>, more: real)
    requires more >= 0.0
    ensures Budget(None, None) == BudgetLine(0.0, true)
    ensures Budget(estimated, Some(Amount(actual) + more)).difference <= Budget(estimated, actual).difference
  {
  }
}

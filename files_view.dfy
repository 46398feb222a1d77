/** The browser's files page: the files that belong to a project, the
    per-project file counts, the project filter dropdown (every project,
    with its count) and the project selection over the table. */
module FilesView {
  import opened JsCore

  /** A file record as the page receives it. `projectId` is `None` for a
      `null` project; `projectName` is `""` when missing. */
  datatype FileItem = FileItem(id: int, projectId: Option<int>, projectName: string, fileType: string,
                               description: string)

  /** `file.project_id && file.project_name`: a project id that is not `null`
      or `0`, and a non-empty project name. */
  predicate HasProject(f: FileItem)
  {
    f.projectId.Some? && f.projectId.value != 0 && f.projectName != ""
  }

  /** `files.filter(file => file.project_id && file.project_name)`. */
  function Associated(files: seq<FileItem>): (r: seq<FileItem>)
    ensures |r| <= |files|
    ensures forall i :: 0 <= i < |r| ==> HasProject(r[i]) && r[i] in files
  {
    if files == [] then []
    else
      var last := files[|files| - 1];
      if HasProject(last) then Associated(files[..|files| - 1]) + [last] else Associated(files[..|files| - 1])
  }

  /** Every file that belongs to a project is kept. */
  lemma {:induction false} AssociatedKeeps(files: seq<FileItem>, f: FileItem)
    ensures f in Associated(files) <==> f in files && HasProject(f)
  {
    if files != [] {
      AssociatedKeeps(files[..|files| - 1], f);
      assert files == files[..|files| - 1] + [files[|files| - 1]];
    }
  }

  /** One entry of the project `Map`: `{ id, name, fileCount }`. */
  datatype Entry = Entry(id: int, name: string, fileCount: nat)

  /** The keys of a list of entries. */
  function Ids(es: seq<Entry>): set<int>
  {
    set e | e in es :: e.id
  }

  /** The position of the entry with that id, if any: `Map.has` / `Map.get`. */
  function IdIndex(es: seq<Entry>, id: int): (r: Option<nat>)
    ensures r.Some? ==> r.value < |es| && es[r.value].id == id
    ensures r.None? ==> forall j :: 0 <= j < |es| ==> es[j].id != id
    ensures r.Some? <==> id in Ids(es)
  {
    if es == [] then None
    else if es[0].id == id then Some(0)
    else
      var r := IdIndex(es[1..], id);
      assert forall e :: e in es <==> e == es[0] || e in es[1..] by {
        assert es == [es[0]] + es[1..];
      }
      if r.Some? then Some(r.value + 1) else None
  }

  /** No two entries share an id, as in a `Map`. */
  predicate DistinctIds(es: seq<Entry>)
  {
    forall i, j :: 0 <= i < j < |es| ==> es[i].id != es[j].id
  }

  /** Two entry lists with the same ids, position by position. */
  predicate SameIds(a: seq<Entry>, b: seq<Entry>)
  {
    |a| == |b| && forall i :: 0 <= i < |a| ==> a[i].id == b[i].id
  }

  /** Changing the values of a `Map` keeps its keys, their order and the
      answers of `has`/`get`. */
  lemma {:induction false} SameIdsFacts(a: seq<Entry>, b: seq<Entry>)
    requires SameIds(a, b)
    ensures Ids(a) == Ids(b)
    ensures DistinctIds(a) ==> DistinctIds(b)
    ensures forall x :: IdIndex(a, x) == IdIndex(b, x)
  {
    if a != [] {
      SameIdsFacts(a[1..], b[1..]);
    }
    forall x ensures x in Ids(a) ==> x in Ids(b) {
      if x in Ids(a) {
        var k := IdIndex(a, x).value;
        assert b[k] in b;
      }
    }
    forall x ensures x in Ids(b) ==> x in Ids(a) {
      if x in Ids(b) {
        var k := IdIndex(b, x).value;
        assert a[k] in a;
      }
    }
  }

  lemma IdsSnoc(es: seq<Entry>, e: Entry)
    ensures Ids(es + [e]) == Ids(es) + {e.id}
  {
    assert forall x :: x in es + [e] <==> x in es || x == e;
  }

  /** Lists with the same members have the same keys. */
  lemma IdsSameMembers(a: seq<Entry>, b: seq<Entry>)
    requires forall e :: e in a <==> e in b
    ensures Ids(a) == Ids(b)
  {
  }

  /** The files of a project among those that belong to one. */
  function CountFor(files: seq<FileItem>, id: int): nat
  {
    if files == [] then 0
    else
      var last := files[|files| - 1];
      CountFor(files[..|files| - 1], id) + if HasProject(last) && last.projectId.value == id then 1 else 0
  }

  /** The project name of the first such file. */
  function NameFor(files: seq<FileItem>, id: int): (r: Option<string>)
    ensures r.Some? <==> CountFor(files, id) > 0
  {
    if files == [] then None
    else
      var before := NameFor(files[..|files| - 1], id);
      var last := files[|files| - 1];
      if before.Some? then before
      else if HasProject(last) && last.projectId.value == id then Some(last.projectName)
      else None
  }

  function SumCounts(es: seq<Entry>): nat
  {
    if es == [] then 0 else SumCounts(es[..|es| - 1]) + es[|es| - 1].fileCount
  }

  lemma {:induction false} SumCountsUpdate(es: seq<Entry>, k: nat, e: Entry)
    requires k < |es|
    ensures SumCounts(es[k := e]) + es[k].fileCount == SumCounts(es) + e.fileCount
  {
    if k < |es| - 1 {
      SumCountsUpdate(es[..|es| - 1], k, e);
      assert es[k := e][..|es| - 1] == es[..|es| - 1][k := e];
    } else {
      assert es[k := e][..|es| - 1] == es[..|es| - 1];
    }
  }

  /** The contents of `projectMap` after the `forEach` over `files`, in
      insertion order. */
  function Tally(files: seq<FileItem>): seq<Entry>
  {
    if files == [] then [] else TallyStep(Tally(files[..|files| - 1]), files[|files| - 1])
  }

  /** One iteration of the `forEach`: a new project gets an entry named after
      the file, and every file of a project adds one to its entry's count. */
  function TallyStep(es: seq<Entry>, f: FileItem): seq<Entry>
  {
    if !HasProject(f) then es
    else
      match IdIndex(es, f.projectId.value)
      case Some(k) => es[k := es[k].(fileCount := es[k].fileCount + 1)]
      case None => es + [Entry(f.projectId.value, f.projectName, 1)]
  }

  /** The tally has one entry per project that has files, and no other. */
  lemma {:induction false} TallyIds(files: seq<FileItem>)
    ensures DistinctIds(Tally(files))
    ensures forall id :: id in Ids(Tally(files)) <==> CountFor(files, id) > 0
  {
    if files != [] {
      var init := files[..|files| - 1];
      var f := files[|files| - 1];
      var es := Tally(init);
      TallyIds(init);
      if HasProject(f) {
        match IdIndex(es, f.projectId.value)
        case Some(k) =>
          SameIdsFacts(es, es[k := es[k].(fileCount := es[k].fileCount + 1)]);
        case None =>
          IdsSnoc(es, Entry(f.projectId.value, f.projectName, 1));
      }
    }
  }

  /** Each entry counts exactly its project's files and carries the name of
      the first of them. */
  lemma {:induction false} TallyEntries(files: seq<FileItem>)
    ensures forall k :: 0 <= k < |Tally(files)| ==>
              Tally(files)[k].fileCount == CountFor(files, Tally(files)[k].id)
              && NameFor(files, Tally(files)[k].id) == Some(Tally(files)[k].name)
  {
    if files != [] {
      var init := files[..|files| - 1];
      var f := files[|files| - 1];
      var es := Tally(init);
      TallyEntries(init);
      TallyIds(init);
    }
  }

  /** The counts add up to the number of files that belong to a project. */
  lemma {:induction false} TallySum(files: seq<FileItem>)
    ensures SumCounts(Tally(files)) == |Associated(files)|
  {
    if files != [] {
      var init := files[..|files| - 1];
      var f := files[|files| - 1];
      var es := Tally(init);
      TallySum(init);
      if HasProject(f) {
        match IdIndex(es, f.projectId.value)
        case Some(k) =>
          SumCountsUpdate(es, k, es[k].(fileCount := es[k].fileCount + 1));
        case None =>
      }
    }
  }

  /** Case-sensitive comparison of names by character code: a fixed total
      order standing in for `localeCompare`. */
  predicate NameLe(a: string, b: string)
    decreases |a|
  {
    a == [] || (b != [] && (a[0] < b[0] || (a[0] == b[0] && NameLe(a[1..], b[1..]))))
  }

  lemma {:induction false} NameLeTotal(a: string, b: string)
    ensures NameLe(a, b) || NameLe(b, a)
    decreases |a|
  {
    if a != [] && b != [] && a[0] == b[0] {
      NameLeTotal(a[1..], b[1..]);
    }
  }

  /** Sorted by name, neighbour by neighbour. */
  predicate SortedByName(es: seq<Entry>)
  {
    forall i :: 0 <= i < |es| - 1 ==> NameLe(es[i].name, es[i + 1].name)
  }

  /** Inserts an entry before the first one whose name it precedes. */
  function Insert(x: Entry, es: seq<Entry>): (r: seq<Entry>)
    ensures |r| == |es| + 1
    ensures forall e :: e in r <==> e == x || e in es
  {
    if es == [] then [x]
    else if NameLe(x.name, es[0].name) then [x] + es
    else [es[0]] + Insert(x, es[1..])
  }

  lemma {:induction false} SumCountsCons(e: Entry, es: seq<Entry>)
    ensures SumCounts([e] + es) == e.fileCount + SumCounts(es)
  {
    if es != [] {
      SumCountsCons(e, es[..|es| - 1]);
      assert ([e] + es)[..|es|] == [e] + es[..|es| - 1];
    }
  }

  lemma {:induction false} InsertSum(x: Entry, es: seq<Entry>)
    ensures SumCounts(Insert(x, es)) == SumCounts(es) + x.fileCount
  {
    if es == [] {
    } else if NameLe(x.name, es[0].name) {
      SumCountsCons(x, es);
    } else {
      InsertSum(x, es[1..]);
      SumCountsCons(es[0], Insert(x, es[1..]));
      SumCountsCons(es[0], es[1..]);
      assert es == [es[0]] + es[1..];
    }
  }

  lemma {:induction false} InsertSorted(x: Entry, es: seq<Entry>)
    requires SortedByName(es)
    ensures SortedByName(Insert(x, es))
    ensures Insert(x, es)[0] == x || (es != [] && Insert(x, es)[0] == es[0])
  {
    if es != [] && !NameLe(x.name, es[0].name) {
      InsertSorted(x, es[1..]);
      NameLeTotal(x.name, es[0].name);
    }
  }

  lemma {:induction false} InsertDistinct(x: Entry, es: seq<Entry>)
    requires DistinctIds(es) && x.id !in Ids(es)
    ensures DistinctIds(Insert(x, es))
  {
    if es == [] {
    } else if NameLe(x.name, es[0].name) {
      DistinctCons(x, es);
    } else {
      var rest := es[1..];
      assert es == [es[0]] + rest;
      assert Ids(rest) <= Ids(es);
      InsertDistinct(x, rest);
      IdsSameMembers(Insert(x, rest), rest + [x]);
      IdsSnoc(rest, x);
      assert es[0].id !in Ids(rest) by {
        assert forall j :: 0 <= j < |rest| ==> rest[j].id != es[0].id;
      }
      assert es[0] in es;
      DistinctCons(es[0], Insert(x, rest));
    }
  }

  /** Putting an entry with a new id in front keeps the ids distinct. */
  lemma DistinctCons(e: Entry, es: seq<Entry>)
    requires DistinctIds(es) && e.id !in Ids(es)
    ensures DistinctIds([e] + es)
  {
    var r := [e] + es;
    forall i, j | 0 <= i < j < |r|
      ensures r[i].id != r[j].id
    {
      if i > 0 {
        assert r[i] == es[i - 1] && r[j] == es[j - 1];
      } else {
        assert r[j] in es;
      }
    }
  }

  /** `Array.from(map.values()).sort((a, b) => a.name.localeCompare(b.name))`. */
  function SortByName(es: seq<Entry>): (r: seq<Entry>)
    ensures |r| == |es|
    ensures forall e :: e in r <==> e in es
  {
    if es == [] then [] else Insert(es[0], SortByName(es[1..]))
  }

  /** The sort puts the entries in name order and loses nothing: the same
      entries, the same ids, the same total count. */
  lemma {:induction false} SortByNameFacts(es: seq<Entry>)
    ensures SortedByName(SortByName(es))
    ensures SumCounts(SortByName(es)) == SumCounts(es)
    ensures Ids(SortByName(es)) == Ids(es)
    ensures DistinctIds(es) ==> DistinctIds(SortByName(es))
  {
    IdsSameMembers(SortByName(es), es);
    if es != [] {
      SortByNameFacts(es[1..]);
      InsertSorted(es[0], SortByName(es[1..]));
      InsertSum(es[0], SortByName(es[1..]));
      SumCountsCons(es[0], es[1..]);
      assert es == [es[0]] + es[1..];
      if DistinctIds(es) {
        assert forall j :: 0 <= j < |es[1..]| ==> es[1..][j].id != es[0].id;
        assert IdIndex(es[1..], es[0].id).None?;
        InsertDistinct(es[0], SortByName(es[1..]));
      }
    }
  }

  /** `getProjectsWithFiles(files)`: the `forEach` that fills the `Map`
      (bumping an entry's count in place), then the sort. */
  method ProjectsWithFiles(files: seq<FileItem>) returns (r: seq<Entry>)
    ensures r == SortByName(Tally(files))
  {
    var projectMap: seq<Entry> := [];
    for i := 0 to |files|
      invariant projectMap == Tally(files[..i])
    {
      var file := files[i];
      if HasProject(file) {
        var k := IdIndex(projectMap, file.projectId.value);
        if k.None? {
          projectMap := projectMap + [Entry(file.projectId.value, file.projectName, 0)];
          k := Some(|projectMap| - 1);
        }
        projectMap := projectMap[k.value := projectMap[k.value].(fileCount := projectMap[k.value].fileCount + 1)];
      }
      assert files[..i + 1][..i] == files[..i];
    }
    assert files[..|files|] == files;
    r := SortByName(projectMap);
  }

  /** What the page's project list says about the files: one entry per
      project that has files, each counting exactly that project's files and
      named after its first file, sorted by name, the counts adding up to the
      number of files that belong to a project. */
  lemma ProjectsWithFilesFacts(files: seq<FileItem>)
    ensures DistinctIds(SortByName(Tally(files)))
    ensures SortedByName(SortByName(Tally(files)))
    ensures forall id :: id in Ids(SortByName(Tally(files))) <==> CountFor(files, id) > 0
    ensures forall e :: e in SortByName(Tally(files)) ==>
              e.fileCount == CountFor(files, e.id) && e.fileCount > 0 && NameFor(files, e.id) == Some(e.name)
    ensures SumCounts(SortByName(Tally(files))) == |Associated(files)|
  {
    var t := Tally(files);
    var s := SortByName(t);
    TallyIds(files);
    TallyEntries(files);
    TallySum(files);
    SortByNameFacts(t);
    forall e | e in s
      ensures e.fileCount == CountFor(files, e.id) && e.fileCount > 0 && NameFor(files, e.id) == Some(e.name)
    {
      var k :| 0 <= k < |t| && t[k] == e;
      assert e.id in Ids(t);
    }
  }

  /** A file that belongs to a project counts for it. */
  lemma {:induction false} CountForPositive(files: seq<FileItem>, f: FileItem)
    requires f in files && HasProject(f)
    ensures CountFor(files, f.projectId.value) > 0
  {
    var init := files[..|files| - 1];
    if files[|files| - 1] != f {
      assert f in init by {
        assert files == init + [files[|files| - 1]];
      }
      CountForPositive(init, f);
    }
  }

  /** A project of the full list. */
  datatype ProjectRow = ProjectRow(id: int, name: string)

  /** `allProjects.forEach(p => allProjectsMap.set(p.id, { id, name, fileCount: 0 }))`:
      `set` on a key already present replaces the value in its place. */
  function Register(all: seq<ProjectRow>): seq<Entry>
  {
    if all == [] then []
    else
      var es := Register(all[..|all| - 1]);
      var p := all[|all| - 1];
      match IdIndex(es, p.id)
      case Some(k) => es[k := Entry(p.id, p.name, 0)]
      case None => es + [Entry(p.id, p.name, 0)]
  }

  /** The ids of a project list. */
  function RowIds(all: seq<ProjectRow>): set<int>
  {
    set p | p in all :: p.id
  }

  /** The registered map holds each project of the full list once, with
      count 0. */
  lemma {:induction false} RegisterFacts(all: seq<ProjectRow>)
    ensures DistinctIds(Register(all))
    ensures Ids(Register(all)) == RowIds(all)
    ensures forall k :: 0 <= k < |Register(all)| ==> Register(all)[k].fileCount == 0
  {
    if all != [] {
      var init := all[..|all| - 1];
      var p := all[|all| - 1];
      var es := Register(init);
      RegisterFacts(init);
      assert RowIds(all) == RowIds(init) + {p.id} by {
        assert all == init + [p];
        assert forall q :: q in all <==> q in init || q == p;
      }
      match IdIndex(es, p.id)
      case Some(k) =>
        SameIdsFacts(es, es[k := Entry(p.id, p.name, 0)]);
      case None =>
        IdsSnoc(es, Entry(p.id, p.name, 0));
    }
  }

  /** `if (allProjectsMap.has(p.id)) allProjectsMap.get(p.id).fileCount = p.fileCount`
      for each project with files. */
  function SetCounts(es: seq<Entry>, withFiles: seq<Entry>): (r: seq<Entry>)
    ensures SameIds(es, r)
  {
    if withFiles == [] then es
    else
      var r := SetCounts(es, withFiles[..|withFiles| - 1]);
      var w := withFiles[|withFiles| - 1];
      match IdIndex(r, w.id)
      case Some(k) => r[k := r[k].(fileCount := w.fileCount)]
      case None => r
  }

  /** The count of the last project with files that has this id, and
      `fallback` when there is none. */
  function LastCount(withFiles: seq<Entry>, id: int, fallback: nat): (c: nat)
    ensures id !in Ids(withFiles) ==> c == fallback
    ensures id in Ids(withFiles) ==> exists e :: e in withFiles && e.id == id && e.fileCount == c
  {
    if withFiles == [] then fallback
    else
      var w := withFiles[|withFiles| - 1];
      var init := withFiles[..|withFiles| - 1];
      assert withFiles == init + [w];
      IdsSnoc(init, w);
      if w.id == id then w.fileCount else LastCount(init, id, fallback)
  }

  /** On a map with distinct keys, each entry ends with the count of its
      project among those with files, and keeps its own count otherwise. */
  lemma {:induction false} SetCountsCount(es: seq<Entry>, withFiles: seq<Entry>, k: nat)
    requires DistinctIds(es) && k < |es|
    ensures SetCounts(es, withFiles)[k].fileCount == LastCount(withFiles, es[k].id, es[k].fileCount)
  {
    if withFiles != [] {
      var init := withFiles[..|withFiles| - 1];
      SetCountsCount(es, init, k);
      SameIdsFacts(es, SetCounts(es, init));
    }
  }

  /** The dropdown list: every project of the full list, sorted by name. */
  function Merged(all: seq<ProjectRow>, withFiles: seq<Entry>): seq<Entry>
  {
    SortByName(SetCounts(Register(all), withFiles))
  }

  /** The dropdown lists each project of the full list once, in name order,
      with the number of its files (0 when it has none); a project that has
      files but is missing from the full list is not listed. */
  lemma MergedFacts(all: seq<ProjectRow>, files: seq<FileItem>)
    ensures DistinctIds(Merged(all, SortByName(Tally(files))))
    ensures SortedByName(Merged(all, SortByName(Tally(files))))
    ensures Ids(Merged(all, SortByName(Tally(files)))) == RowIds(all)
    ensures forall e :: e in Merged(all, SortByName(Tally(files))) ==> e.fileCount == CountFor(files, e.id)
  {
    var withFiles := SortByName(Tally(files));
    var es := Register(all);
    var r := SetCounts(es, withFiles);
    ProjectsWithFilesFacts(files);
    RegisterFacts(all);
    SameIdsFacts(es, r);
    SortByNameFacts(r);
    forall e | e in SortByName(r)
      ensures e.fileCount == CountFor(files, e.id)
    {
      MergedCount(files, withFiles, es, r, e);
    }
  }

  lemma MergedCount(files: seq<FileItem>, withFiles: seq<Entry>, es: seq<Entry>, r: seq<Entry>, e: Entry)
    requires withFiles == SortByName(Tally(files))
    requires DistinctIds(es) && forall k :: 0 <= k < |es| ==> es[k].fileCount == 0
    requires r == SetCounts(es, withFiles) && e in SortByName(r)
    requires forall id :: id in Ids(withFiles) <==> CountFor(files, id) > 0
    requires forall w :: w in withFiles ==> w.fileCount == CountFor(files, w.id)
    ensures e.fileCount == CountFor(files, e.id)
  {
    var k :| 0 <= k < |r| && r[k] == e;
    assert es[k].id == e.id;
    SetCountsCount(es, withFiles, k);
  }

  /** `(n archivo[s])` or `(sin archivos)` after the project name. */
  function OptionLabel(e: Entry): (r: string)
    ensures e.fileCount == 0 ==> r == e.name + " (sin archivos)"
    ensures e.fileCount == 1 ==> r == e.name + " (1 archivo)"
    ensures e.fileCount > 1 ==> r == e.name + " (" + DecimalString(e.fileCount) + " archivos)"
  {
    if e.fileCount > 0 then
      e.name + " (" + DecimalString(e.fileCount) + " archivo" + (if e.fileCount != 1 then "s" else "") + ")"
    else e.name + " (sin archivos)"
  }

  /** The table rows: with a project selected (a non-empty select value),
      the files whose project id equals it; otherwise all files. */
  function VisibleFiles(files: seq<FileItem>, selected: Option<string>): (r: seq<FileItem>)
    ensures selected.None? || selected.value == "" ==> r == files
  {
    if selected.None? || selected.value == "" then files
    else InProject(files, selected.value)
  }

  /** `file.project_id == value` with the select's string value: the decimal
      spelling of the id. */
  predicate SameProject(f: FileItem, value: string)
  {
    f.projectId.Some? && f.projectId.value >= 0 && DecimalString(f.projectId.value) == value
  }

  /** `files.filter(file => file.project_id == value)`. */
  function InProject(files: seq<FileItem>, value: string): (r: seq<FileItem>)
    ensures |r| <= |files|
    ensures forall i :: 0 <= i < |r| ==> SameProject(r[i], value)
  {
    if files == [] then []
    else
      var last := files[|files| - 1];
      if SameProject(last, value) then InProject(files[..|files| - 1], value) + [last]
      else InProject(files[..|files| - 1], value)
  }

  /** With a selection the table keeps exactly the files of that project:
      each of them, as often as it occurs, and no other. */
  lemma {:induction false} InProjectCounts(files: seq<FileItem>, value: string, f: FileItem)
    ensures multiset(InProject(files, value))[f] == if SameProject(f, value) then multiset(files)[f] else 0
  {
    if files != [] {
      InProjectCounts(files[..|files| - 1], value, f);
      assert files == files[..|files| - 1] + [files[|files| - 1]];
    }
  }

  /** Selecting the dropdown entry of a project shows exactly its files. */
  lemma SelectProject(files: seq<FileItem>, e: Entry, f: FileItem)
    requires e.id > 0 && f in files
    ensures f in VisibleFiles(files, Some(DecimalString(e.id))) <==> f.projectId == Some(e.id)
  {
    InProjectCounts(files, DecimalString(e.id), f);
    if f.projectId.Some? && f.projectId.value >= 0 && DecimalString(f.projectId.value) == DecimalString(e.id) {
      DecimalStringValue(f.projectId.value);
      DecimalStringValue(e.id);
    }
  }

  const FileIcons: map<string, string> :=
    map["image" := "bi-image", "pdf" := "bi-file-pdf", "excel" := "bi-file-excel", "word" := "bi-file-word",
        "cad" := "bi-file-earmark-binary", "other" := "bi-file-earmark"]

  const FileTypeNames: map<string, string> :=
    map["image" := "Imagen", "pdf" := "PDF", "excel" := "Excel", "word" := "Word", "cad" := "CAD",
        "other" := "Otro"]

  /** `iconMap[fileType] || 'bi-file-earmark'`. */
  function FileIcon(fileType: string): (r: string)
    ensures fileType in FileIcons ==> r == FileIcons[fileType]
    ensures fileType !in FileIcons ==> r == "bi-file-earmark"
  {
    LookupOr(FileIcons, fileType, "bi-file-earmark")
  }

  /** `typeMap[fileType] || 'Desconocido'`. */
  function FileTypeText(fileType: string): (r: string)
    ensures fileType in FileTypeNames ==> r == FileTypeNames[fileType]
    ensures fileType !in FileTypeNames ==> r == "Desconocido"
  {
    LookupOr(FileTypeNames, fileType, "Desconocido")
  }

  /** The file description under its name: the first 50 characters, with
      `...` when it was longer. */
  function DescriptionLine(f: FileItem): (r: string)
    ensures |r| <= 53
    ensures |f.description| <= 50 ==> r == f.description
    ensures |f.description| > 50 ==> |r| == 53 && r[..50] == f.description[..50] && r[50..] == "..."
  {
    Truncated(f.description, 50)
  }

  /** The page's state: the files of projects (`currentFiles`), the dropdown
      (`filesProjects`) and the selection (`selectedProjectId`). */
  class FilesPage {
    var currentFiles: seq<FileItem>
    var filesProjects: seq<Entry>
    var selectedProjectId: Option<string>

    constructor()
      ensures currentFiles == [] && filesProjects == [] && selectedProjectId.None?
    {
      currentFiles := [];
      filesProjects := [];
      selectedProjectId := None;
    }

    /** `loadFiles` with the fetched files and, when `/api/projects`
        answered, the full project list. */
    method LoadFiles(fetched: seq<FileItem>, allProjects: Option<seq<ProjectRow>>)
      modifies this
      ensures currentFiles == Associated(fetched)
      ensures allProjects.None? ==> filesProjects == SortByName(Tally(currentFiles))
      ensures allProjects.Some? ==> filesProjects == Merged(allProjects.value, SortByName(Tally(currentFiles)))
      ensures selectedProjectId == old(selectedProjectId)
    {
      currentFiles := Associated(fetched);
      var withFiles := ProjectsWithFiles(currentFiles);
      filesProjects := withFiles;
      if allProjects.Some? {
        var projectMap := Register(allProjects.value);
        for i := 0 to |withFiles|
          invariant projectMap == SetCounts(Register(allProjects.value), withFiles[..i])
        {
          var k := IdIndex(projectMap, withFiles[i].id);
          if k.Some? {
            projectMap := projectMap[k.value := projectMap[k.value].(fileCount := withFiles[i].fileCount)];
          }
          assert withFiles[..i + 1][..i] == withFiles[..i];
        }
        assert withFiles[..|withFiles|] == withFiles;
        filesProjects := SortByName(projectMap);
      }
    }

    /** `filterFilesByProject`: the select's value becomes the selection. */
    method FilterFilesByProject(value: string)
      modifies this
      ensures selectedProjectId == Some(value)
      ensures currentFiles == old(currentFiles) && filesProjects == old(filesProjects)
    {
      selectedProjectId := Some(value);
    }

    /** The rows `renderFilesTable` shows. */
    function Shown(): seq<FileItem>
      reads this
    {
      VisibleFiles(currentFiles, selectedProjectId)
    }
  }
}

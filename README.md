# Construction management app: verified model of its decision logic

This project is a Dafny model of the decision and transformation rules of a
construction-management web application. The application has an Express/MySQL
server and a browser front end. The model covers:

- the in-memory collaborative editing engine. It covers the document operations (replace,
  insert, delete, cell update), the update log capped at 100 entries, the
  session table (join, update, save, leave, listing, polling) and the file
  permission rule;
- the upload file-type classifier;
- the authentication and role guards, login, and the profile handler;
- the user routes: read, create, update, password change and soft delete. The update
  handlers build their ordered `SET` field and value lists one optional field at a time;
- the browser scripts:
  - the status filter and restore state machine of the application object;
  - currency clean-up and the lookup tables;
  - the files page's per-project counting, its merge with the full project list and its project selection;
  - the date normalisation and progress-bar classes of the projects and activities pages;
  - the dashboard's statistics and chart;
  - the users page's form logic.

Each module follows one source file. `JsCore` holds the JavaScript semantics
that the others share: values and truthiness, `parseInt`, `String(n)`,
`slice`, `a || b` on lookup tables, and truncation with an ellipsis. Database
rows, hashing, fresh ids, loaded documents and the clock are parameters of the
operations that use them.

Mutable state is modelled as classes:

- the session table is `Collaboration.CollaborationServer`, which keeps the Map's insertion order;
- the request session is `ServerAuth.HttpSession`;
- the application object is `AppView.ConstructionApp`;
- the files page globals are `FilesView.FilesPage`.

The update-field builders are methods that push one field at a time. Each is
proved equal to a list-valued definition (`Clause` over a list of candidate
fields), and lemmas about that definition say which columns are set and to
what.

## Model

| member | source | states |
|---|---|---|
| JsCore.ParseInt | routes/users.js:68 | `parseInt(id)` (also at routes/users.js:141, 234 and 296) without a radix skips white space, accepts one sign and `0x`, and reads the longest digit run; a number is produced only when some digit is present |
| JsCore.ParseSigned | routes/users.js:141-143 | the signed part of `parseInt`: a number is produced only when the text holds a digit |
| JsCore.DecimalStringValue | routes/users.js:199 | the digits of `String(n)` read back in base 10 give n |
| JsCore.SliceFrom | routes/collaboration.js:395 | `text.slice(k)` is the suffix from k when k is inside the text |
| JsCore.ParseIntDecimalString | routes/users.js:141-143 | `parseInt(String(n)) === n` for every non-negative id, so an id put in a URL is read back unchanged |
| JsCore.DecimalString | routes/users.js:199 | `String(n)` is a non-empty run of digits with no leading zero except for 0 |
| JsCore.Truncated | public/js/projects.js:99 | `substring(0, n) + (length > n ? '...' : '')`: unchanged up to n characters, otherwise the first n characters and `...` |
| JsCore.TruncatedIdempotent | public/js/projects.js:99 | truncating an already truncated text changes nothing |
| JsCore.Take | public/js/dashboard.js:64-65 | `slice(0, n)` is the first n items, or the whole list when it is shorter |
| JsCore.LookupOr | public/js/app.js:661-671 | `map[key] \|\| fallback`: the table's value for a known key with a non-empty value, the fallback for an unknown key |
| JsCore.LowerAsciiChars | routes/files.js:32 | lower-casing maps every ASCII capital to its small letter and keeps every other character |
| Collaboration.ApplyOperation | routes/collaboration.js:385-424 | `replace` returns the new content; an edit on `null` content throws; insert/delete on non-Word content, a cell update on non-Excel content or without a target cell, and unknown operations return the current content |
| Collaboration.InsertIntoWord | routes/collaboration.js:390-397 | insert gives `text[..pos] + s + text[pos..]`, grows the text by \|s\| and keeps every other field |
| Collaboration.DeleteFromWord | routes/collaboration.js:399-406 | delete removes \|s\| characters at `pos` and keeps the text before `pos` and every other field |
| Collaboration.InsertThenDelete | routes/collaboration.js:390-406 | inserting `s` at `pos` and then deleting `s` at `pos` restores the document |
| Collaboration.CellUpdateOnlyTouchesTarget | routes/collaboration.js:408-417 | a cell update writes exactly the addressed cell when its sheet exists (creating a missing row), changes no other cell and no sheet name, and leaves the document unchanged when the sheet does not exist |
| Collaboration.KeepLastIsSuffix | routes/collaboration.js:436-438 | `slice(-100)` keeps the newest entries in their original order |
| Collaboration.KeepLast | routes/collaboration.js:436-438 | `slice(-100)` keeps min(length, 100) entries (`KeepLastIsSuffix` shows they are the newest) |
| Collaboration.KeepLastPush | routes/collaboration.js:426-439 | trimming after every push gives the same log as trimming the whole history once |
| Collaboration.LogAfterPush | routes/collaboration.js:426-439 | after a push the log has between 1 and 100 entries and ends with the pushed update |
| Collaboration.CountEditsPush | routes/collaboration.js:97-111 | pushing a content update adds one to the number of edits in the history, and any other update adds none |
| Collaboration.Broadcast | routes/collaboration.js:426-439 | `broadcastUpdate` changes only the log, which ends with the update and holds at most 100 entries |
| Collaboration.BroadcastKeepsInvariant | routes/collaboration.js:426-439 | a broadcast keeps the session invariant: the log is the last 100 entries of the full history and the version is one more than the number of content edits |
| Collaboration.UpdatesAfter | routes/collaboration.js:458-461 | the `since` filter keeps exactly the updates later than the instant, in order; an invalid date keeps none |
| Collaboration.UpdatesAfterAppend | routes/collaboration.js:458-461 | filtering a concatenation concatenates the filtered parts, so the filter keeps the log's order |
| Collaboration.UpdatesAfterCounts | routes/collaboration.js:458-461 | every update later than the instant is kept as many times as it occurs, and no other update is kept |
| Collaboration.PolledUpdates | routes/collaboration.js:456-461 | without `since` the whole log is returned |
| Collaboration.WriteImpliesRead | routes/collaboration.js:284-290 | a user with write permission also has read permission |
| Collaboration.PermissionDefaults | routes/collaboration.js:266-298 | the uploader is always allowed; with no permission row anyone else is refused; otherwise read is granted by read/write/admin and write by write/admin |
| Collaboration.CheckFilePermission | routes/collaboration.js:266-298 | anyone but the uploader needs a permission row; a permission type other than read or write is granted to the uploader alone |
| Collaboration.KeyOrderRemove | routes/collaboration.js:226-228 | deleting a session keeps the Map's other keys in insertion order |
| Collaboration.KeyOrderAdd | routes/collaboration.js:51-55 | adding a new session appends its key to the Map's insertion order |
| Collaboration.RemoveKey | routes/collaboration.js:226-228 | deleting a key keeps exactly the other keys, still each once |
| Collaboration.TableAdd | routes/collaboration.js:51-55 | creating a session keeps the table invariant: every live session has a user, its log and version agree with its history, and the keys are listed once each in insertion order |
| Collaboration.TableReplace | routes/collaboration.js:97-111 | replacing a session by one that keeps the session invariant keeps the table invariant |
| Collaboration.TableRemove | routes/collaboration.js:226-228 | deleting a session keeps the table invariant |
| Collaboration.SummariesMembership | routes/collaboration.js:243-256 | a file appears in the listing exactly when its session contains the caller, with that session's user count |
| Collaboration.SummariesOfTable | routes/collaboration.js:243-256 | the session listing shows exactly the sessions the caller is in, in table order |
| Collaboration.CollectSummaries | routes/collaboration.js:241-256 | the listing loop returns the summaries of the caller's sessions, in table order |
| Collaboration.CollaborationServer.constructor | routes/collaboration.js:20 | the table starts empty |
| Collaboration.CollaborationServer.Join | routes/collaboration.js:23-78 | 403 without write permission, 404 without the file, 400 for a type other than Excel or Word; otherwise the session is created on first use (version 1, empty log) and the caller is added, keyed by id, so joining twice keeps one entry |
| Collaboration.CollaborationServer.UpdateContent | routes/collaboration.js:81-123 | 404 without a session, 403 for a non-member; a success applies the operation, increments the version by exactly 1 and broadcasts the new content, and nothing else changes |
| Collaboration.CollaborationServer.Save | routes/collaboration.js:126-204 | 404 without a session or file row; 500 when the document is not of the file's kind (Word text for `word`, sheets for `excel`), when the type is neither, or when writing fails; a success announces the saved copy without changing the version |
| Collaboration.CollaborationServer.Leave | routes/collaboration.js:207-236 | a member is removed and the departure is broadcast; the session is deleted exactly when its user set becomes empty; a non-member changes nothing |
| Collaboration.CollaborationServer.ListSessions | routes/collaboration.js:239-262 | the caller's sessions, each with its user count, in table order |
| Collaboration.CollaborationServer.Poll | routes/collaboration.js:442-473 | 404 without a session, 403 for a non-member; otherwise the log filtered by `since` (the whole log without it) and the current version |
| FileRoutes.ExtName | routes/files.js:32 | the extension is empty or starts with its only `.` and holds no `/` |
| FileRoutes.ExtNameOfName | routes/files.js:32 | a file name `stem + ext` has extension `ext` |
| FileRoutes.BaseName | routes/files.js:32 | the base name is the part of the path after its last `/`: a suffix without `/` that is the whole path or follows a `/` |
| FileRoutes.SegmentExt | routes/files.js:32 | the extension of a segment is empty or a suffix of it that starts with its only `.` |
| FileRoutes.BaseNameWithoutSlash | routes/files.js:32 | a name without `/` is its own base name |
| FileRoutes.Classify | routes/files.js:33-42 | the decision chain always yields one of the six file types |
| FileRoutes.GetFileType | routes/files.js:31-43 | the result is always one of image, excel, word, pdf, cad and other |
| FileRoutes.ImageDecidedFirst | routes/files.js:34 | an `image/` MIME type gives `image` whatever the extension |
| FileRoutes.ExcelBeforeWord | routes/files.js:35-36 | Excel MIME types or `.xlsx`/`.xls` give `excel` unless the type is an image |
| FileRoutes.WordAfterExcel | routes/files.js:37-38 | Word MIME types or `.docx`/`.doc` give `word` when neither the image nor the Excel test applies |
| FileRoutes.PdfByMimeCadByExtension | routes/files.js:39-40 | `pdf` is decided by the MIME type only and `cad` by the extensions `.dwg/.dxf/.step/.iges` only |
| FileRoutes.ExtensionCaseInsensitive | routes/files.js:32 | two names whose extensions agree up to letter case classify alike |
| FileRoutes.ExtNameLower | routes/files.js:32 | the extension of a lower-cased name is the lower-cased extension |
| FileRoutes.NameCaseInsensitive | routes/files.js:32 | two names that differ only in the case of ASCII letters classify alike |
| FileRoutes.ExcelExtensionAnyCase | routes/files.js:32-36 | `.XLSX`, `.Xls` and the like give `excel` |
| FileRoutes.FileList | routes/files.js:136 | a single uploaded file is treated as a list of one |
| FileRoutes.Upload | routes/files.js:126-194 | 400 without files; a success has one entry per input file, in order |
| FileRoutes.StoreEach | routes/files.js:138-171 | the upload loop stores one row and one response entry per file, the k-th of each for the k-th file |
| FileRoutes.RowMatchesEntry | routes/files.js:154-171 | `is_shared` is stored true exactly when the form value is the string `'true'`; the stored row and the response entry agree on name and type |
| ServerAuth.RequireAuth | server.js:127-133 | a request passes exactly when the session has a truthy `userId`, and otherwise gets 401 |
| ServerAuth.RequireRole | server.js:136-144 | a request passes only when the session role is a non-empty listed role, and otherwise gets 403 |
| ServerAuth.RequireRoleMonotone | server.js:136-144 | allowing more roles never refuses a request that fewer roles let through |
| ServerAuth.RequireRoleExactly | server.js:136-144 | a string role passes exactly when it is non-empty and listed |
| ServerAuth.HttpSession.constructor | server.js:110-120 | a new session holds no user |
| ServerAuth.HttpSession.Login | server.js:149-201 | a missing user name or password gives 400 before any lookup; an unknown user or wrong password gives 401 and changes nothing; a password that is not a string gives 500 for a known user; a success stores id, name, role and both names |
| ServerAuth.HttpSession.UpdateProfile | server.js:243-300 | 401 without a user; an empty update gives 400; the session's names are overwritten only when the field was given and the update succeeded; id, user name and role never change |
| ServerAuth.Query | server.js:280-285 | the value list has one element more than the field list, with the key last |
| ServerAuth.QueryPush | server.js:250-274 | pushing one assignment appends its setter to the field list and its value to the value list |
| ServerAuth.ClausePush | server.js:250-274 | one optional field appends its setter and its value to the two lists when it is included, and changes neither otherwise |
| ServerAuth.PushField | server.js:250-274 | one `if (...) { push; push }` step keeps the two lists equal to the fields and values of the candidates seen so far |
| ServerAuth.AssignedUnique | routes/users.js:149-193 | a column named by exactly one candidate is set to that candidate's value exactly when it is included |
| ServerAuth.AssignedAbsent | routes/users.js:149-193 | a column no candidate names is never set |
| ServerAuth.ProfileLists | server.js:247-274 | the two lists the profile handler builds are the fields and values of its candidates |
| ServerAuth.ProfileColumns | server.js:250-274 | first name, last name and e-mail are set only when truthy, the phone whenever it is not undefined, the password hash only when a password is given; user name, role and active flag never |
| UserRoutes.UpdateImpliesView | routes/users.js:68-70 | whoever may update a user may also read that user (`CanUpdateUser` implies `CanViewUser`) |
| UserRoutes.OwnRecordAllowed | routes/users.js:141-143 | every user may read and update their own record (`CanViewUser`, `CanUpdateUser`) |
| UserRoutes.WorkerOnlySelf | routes/users.js:68-70 | a worker may read and update only their own record (`CanViewUser`, `CanUpdateUser`) |
| UserRoutes.GetUser | routes/users.js:63-86 | 401 without a session; reading is allowed exactly for the user themselves, an admin or a manager (403 otherwise); 404 without a row |
| UserRoutes.CreateUser | routes/users.js:89-132 | admins only; user name, e-mail, password and both names are required (400); a taken name or e-mail is 409; a complete request from an admin with a free name succeeds exactly when the password is a string; the role defaults to `worker` |
| UserRoutes.CreateNeedsAllFields | routes/users.js:93-95 | a missing required field is refused with 400 whatever is taken |
| UserRoutes.CheckPassword | routes/users.js:171-181 | an accepted password is a string of at least 6 characters |
| UserRoutes.PasswordRule | routes/users.js:171-174 | a blank password is ignored, a non-blank one shorter than 6 is refused, any other is kept |
| UserRoutes.UserColumns | routes/users.js:149-193 | user name, e-mail and names are set only when truthy, the phone whenever defined, the hash only for an accepted password, and role and active flag only for an admin |
| UserRoutes.PersonalLists | routes/users.js:146-168 | the lists built from the personal fields are those of their candidates |
| UserRoutes.UserLists | routes/users.js:146-193 | the full lists are those of all candidates; a short or non-string password stops the build |
| UserRoutes.UpdateUser | routes/users.js:135-225 | 401, then 403 unless the caller is the user or an admin; 400 for a short password or an empty update; the id is the last value; 404 when no row changed |
| UserRoutes.ChangePassword | routes/users.js:228-288 | a new password shorter than 6 is refused; a non-admin must be the user and give a matching current password; an admin may reset anyone's password |
| UserRoutes.AdminResetsAnyPassword | routes/users.js:241-261 | an admin needs no current password |
| UserRoutes.DeleteUser | routes/users.js:291-320 | admins only; an admin cannot delete their own account (400); a success is a soft delete that sets only that user's active flag to false |
| AppView.WithStatus | public/js/app.js:224-226 | the filter keeps only rows with the status |
| AppView.WithStatusCounts | public/js/app.js:224-226 | every matching row is kept as often as it occurs and no other row is kept |
| AppView.WithStatusAppend | public/js/app.js:224-226 | the filter keeps the relative order |
| AppView.WithStatusIdempotent | public/js/app.js:224-226 | filtering twice by a status is filtering once |
| AppView.ApplyFilter | public/js/app.js:213-246 | the original list is saved only when nothing is saved yet; the shown list is the saved rows with the status |
| AppView.ClearSaved | public/js/app.js:341-349 | clearing shows the saved list again and forgets it; with nothing saved nothing changes |
| AppView.FilterTwice | public/js/app.js:213-231 | filtering again filters the saved original, not the list on screen |
| AppView.FilterThenClear | public/js/app.js:213-231 | filtering and then clearing restores the list that was shown before the first filter |
| AppView.ClearIdempotent | public/js/app.js:341-349 | clearing twice is clearing once |
| AppView.ConstructionApp.constructor | public/js/app.js:3-7 | the application starts on the dashboard with nothing saved |
| AppView.ConstructionApp.FilterProjectsByStatus | public/js/app.js:213-246 | `projectsData` becomes the saved original's rows with the status; activities and section are untouched |
| AppView.ConstructionApp.FilterActivitiesByStatus | public/js/app.js:259-292 | the same for `currentActivities` |
| AppView.ConstructionApp.ClearFilter | public/js/app.js:333-363 | only the named list is restored; any other name changes nothing |
| AppView.ConstructionApp.ClearAllFilters | public/js/app.js:174-191 | both lists are restored and their saved copies forgotten |
| AppView.ConstructionApp.ShowSection | public/js/app.js:136-172 | the filters are cleared only when the section changes; the section becomes the target, except that `users` for a role other than admin or manager ends on `dashboard` with the filters cleared (the `loadUsers` check that `loadSectionContent` runs) |
| AppView.ConstructionApp.LoadUsers | public/js/app.js:439-449 | the users section loads exactly for admin or manager; anyone else is sent to the dashboard |
| AppView.ParseCurrency | public/js/app.js:933-936 | the result holds only digits and is `''` for empty input |
| AppView.ParseCurrencyAppend | public/js/app.js:933-936 | the digits keep their order |
| AppView.ParseCurrencyDigits | public/js/app.js:933-936 | a string of digits is left as it is |
| AppView.ParseCurrencyIdempotent | public/js/app.js:933-936 | cleaning twice is cleaning once |
| AppView.ParseCurrencyCounts | public/js/app.js:933-936 | every digit survives as often as it occurs, and nothing else does |
| AppView.StatusText | public/js/app.js:661-671 | known statuses are translated and unknown ones returned unchanged |
| AppView.SupplierTypeText | public/js/app.js:673-681 | known supplier types are translated and unknown ones returned unchanged |
| AppView.RoleText | public/js/app.js:683-691 | known roles are translated and unknown ones returned unchanged (public/js/users.js:78-86 holds the same table) |
| AppView.UnknownIffUnchanged | public/js/app.js:661-691 | each of the three tables returns its key unchanged exactly when the key is unknown |
| FilesView.Associated | public/js/files.js:16 | only files with both a project id and a project name are kept |
| FilesView.AssociatedKeeps | public/js/files.js:16 | every such file is kept |
| FilesView.IdIndex | public/js/files.js:70-77 | `Map.has`/`Map.get`: a position holding the id exactly when some entry has it |
| FilesView.SameIdsFacts | public/js/files.js:77 | updating an entry's count in place keeps the keys, their order and the answers of `has`/`get` |
| FilesView.TallyIds | public/js/files.js:64-79 | the map has one entry per project that has files and no other, each key once |
| FilesView.TallyEntries | public/js/files.js:68-78 | each entry counts exactly its project's files and is named after the first of them |
| FilesView.TallySum | public/js/files.js:68-78 | the counts add up to the number of files that belong to a project |
| FilesView.SortByNameFacts | public/js/files.js:82 | the sort orders the entries by name and keeps the same entries, ids and total count |
| FilesView.SortByName | public/js/files.js:82 | the sort keeps the length and the same entries |
| FilesView.NameLeTotal | public/js/files.js:82 | any two names are ordered one way or the other |
| FilesView.InsertSorted | public/js/files.js:82 | inserting into a sorted list keeps it sorted |
| FilesView.InsertDistinct | public/js/files.js:82 | inserting an entry with a new id keeps the ids distinct |
| FilesView.ProjectsWithFiles | public/js/files.js:64-83 | the `forEach` loop fills the map exactly as the tally defines, then sorts it |
| FilesView.ProjectsWithFilesFacts | public/js/files.js:64-83 | `getProjectsWithFiles`: one entry per project with files, counting exactly its files, named after its first file, sorted by name, the counts adding up to the qualifying files |
| FilesView.CountForPositive | public/js/files.js:68-78 | a file that belongs to a project counts for that project |
| FilesView.RegisterFacts | public/js/files.js:30-37 | the full-list map holds each project once with count 0 |
| FilesView.SetCounts | public/js/files.js:40-44 | copying counts keeps the map's keys in place |
| FilesView.SetCountsCount | public/js/files.js:40-44 | each project ends with the count of the last listed project with its id, and keeps its own count otherwise |
| FilesView.MergedFacts | public/js/files.js:30-46 | the dropdown lists every project of the full list once, sorted by name, with its number of files (0 when it has none); projects missing from the full list are dropped |
| FilesView.MergedCount | public/js/files.js:40-46 | every dropdown entry of the merged list carries the number of files of its project |
| FilesView.OptionLabel | public/js/files.js:95-99 | `(sin archivos)` for 0 files, `(1 archivo)` for one, `(n archivos)` for more |
| FilesView.VisibleFiles | public/js/files.js:139-142 | with no selection the table shows every file |
| FilesView.InProject | public/js/files.js:141 | a selection keeps only files whose project id reads as the selected value |
| FilesView.InProjectCounts | public/js/files.js:141 | each file of the selected project is kept as often as it occurs, and no other |
| FilesView.SelectProject | public/js/files.js:139-142 | selecting a project's entry shows exactly the files with that project id |
| FilesView.FileIcon | public/js/files.js:208-218 | known types get their icon and unknown ones `bi-file-earmark` |
| FilesView.FileTypeText | public/js/files.js:220-230 | known types are translated and unknown ones read `Desconocido` |
| FilesView.DescriptionLine | public/js/files.js:175 | a description of up to 50 characters is shown whole; a longer one as its first 50 characters and `...` |
| FilesView.FilesPage.constructor | public/js/files.js:2-4 | the page starts with no files, no projects and no selection |
| FilesView.FilesPage.LoadFiles | public/js/files.js:6-61 | `currentFiles` holds the files of projects; the dropdown holds the projects with files, merged into the full list when that list was fetched; the selection is kept |
| FilesView.FilesPage.FilterFilesByProject | public/js/files.js:566-570 | the select's value becomes the selection and nothing else changes |
| ProjectsView.BeforeFirst | public/js/projects.js:15-17 | `split(c)[0]` is the longest prefix without `c`, followed in the input by `c` when shorter |
| ProjectsView.FormatDateForInput | public/js/projects.js:6-18 | `''` for an empty or missing date; a `DDDD-DD-DD` string unchanged; the part before the first `T` otherwise (public/js/activities.js:7-18 is the same code) |
| ProjectsView.TimestampDate | public/js/projects.js:10-17 | an ISO timestamp gives its date, and normalising that date again keeps it |
| ProjectsView.ProgressBarClass | public/js/projects.js:156-161 | success from 80, info from 50, warning from 25, danger below (the same at public/js/projects.js:815-820 and public/js/activities.js:168-173) |
| ProjectsView.ProgressBarMonotone | public/js/projects.js:156-161 | more progress never gives a worse bar class |
| ProjectsView.DescriptionLine | public/js/projects.js:99 | nothing for no description, the text itself up to 50 characters, else its first 50 characters and `...` (public/js/activities.js:117 is the same); shortening it again changes nothing |
| ProjectsView.ProjectStatusText | public/js/projects.js:145-154 | known statuses are translated and unknown ones returned unchanged |
| ProjectsView.PriorityText | public/js/projects.js:450-458 | known priorities are translated and unknown ones returned unchanged (public/js/activities.js:175-183 holds the same table) |
| ProjectsView.ProjectTextsUnknownIffUnchanged | public/js/projects.js:145-154 | the status and priority tables return their key unchanged exactly when the key is unknown |
| ProjectsView.Budget | public/js/projects.js:368-369 | the difference is estimated minus actual, both defaulting to 0, and shows as a success exactly when it is not negative |
| ProjectsView.BudgetFacts | public/js/projects.js:368-369 | a project without figures is on budget with nothing left; spending more never raises the difference |
| ActivitiesView.SaveActivity | public/js/activities.js:185-212 | a missing project or name is refused before any request; otherwise a `PUT` to `/api/activities/{id}` exactly when an id is set, else a `POST` to `/api/activities` |
| ActivitiesView.EditTargetsActivity | public/js/activities.js:200-212 | the id of an edit is read back from its URL |
| ActivitiesView.ActivityStatusText | public/js/activities.js:157-166 | known statuses are translated and unknown ones returned unchanged (public/js/projects.js:804-813 holds the same table) |
| DashboardView.CountStatus | public/js/dashboard.js:50-59 | a status count is at most the list's length |
| DashboardView.StatusCountsBounded | public/js/dashboard.js:50-59 | the counts of three different statuses add up to at most the list's length |
| DashboardView.AverageProgress | public/js/dashboard.js:53 | 0 without projects; between 0 and 100 when every percentage is |
| DashboardView.OverdueAll | public/js/dashboard.js:65 | only activities with an end date before now and not completed are selected |
| DashboardView.OverdueAllKeeps | public/js/dashboard.js:65 | every such activity is selected |
| DashboardView.BasicDashboardData | public/js/dashboard.js:34-66 | each count is the number of items with that status, and active plus completed projects are at most the total (pending, active and completed activities likewise); the recent list is the first five activities; the overdue list is the first five overdue activities |
| DashboardView.OverdueComplete | public/js/dashboard.js:65 | with at most five overdue activities all of them are listed |
| DashboardView.ChartLabel | public/js/dashboard.js:140 | names over 20 characters become their first 20 and `...`; a missing or empty name reads `Sin nombre` |
| DashboardView.ChartColor | public/js/dashboard.js:142-147 | green from 80, yellow from 50, orange from 25, red below |
| DashboardView.ColorMatchesBar | public/js/dashboard.js:142-147 | the chart's colour bands are the progress bar's bands |
| DashboardView.ProgressChart | public/js/dashboard.js:127-147 | at most the first ten projects, one label, value and colour each; an empty list becomes a single `Sin datos` bar at 0 |
| DashboardView.DashboardStatusText | public/js/dashboard.js:367-375 | known statuses are translated and unknown ones read `Desconocido` |
| UsersView.SaveUser | public/js/users.js:98-132 | the form is refused when user name, e-mail or a name is empty, or when a new user has no password; an edit without a password is sent; `PUT` exactly when editing |
| UsersView.FormBody | public/js/users.js:99-108 | the texts are sent as strings and the active flag as a boolean; the phone is `null` exactly when it is empty, so the server sees it truthy exactly when it was typed |
| UsersView.CreateFormHasRequiredFields | public/js/users.js:113-121 | a new user the page accepts passes the server's required-field check |
| UsersView.EditUser | public/js/users.js:159-172 | editing fills the form from the user's row, always clears the password and never leaves the role empty; an unknown id leaves the form alone |
| UsersView.EditFilled | public/js/users.js:159-172 | the form comes from the first row with the id: each text field or `''`, the role or `worker`, the phone or `''`, the active flag as stored, and an empty password |
| UsersView.OrElse | public/js/users.js:165-171 | `value \|\| fallback`: a non-empty field is kept, and a missing or empty one becomes the fallback |
| UsersView.EditKeepsPassword | public/js/users.js:159-172 | saving an edit without typing a password sends a password the server ignores |
| UsersView.RoleBadgeClass | public/js/users.js:88-96 | known roles get their badge and unknown ones `bg-secondary` |
| UsersView.DeletableRows | public/js/users.js:67 | every row with a delete button is a row other than the signed-in user's |
| UsersView.DeleteButtonForOthers | public/js/users.js:67 | every user except the signed-in one has a delete button (the `ShowDeleteButton` rule) |

## Left out

- Database, file system and network: query effects, file moves, downloads and fetches are out of scope. Rows, hashes (bcrypt), fresh ids (uuid), loaded documents (XLSX, mammoth) and the clock are parameters.
- Concurrency: the session table is changed by one request at a time, and interleavings are not modelled.
- Aliasing: a cell update changes the spreadsheet in place, and earlier log entries that hold the same object change with it. The model keeps every logged document as the value it had when it was logged.
- Dates and timestamps are integers. Their wall-clock values and the `new Date(...)` fallback branch of `formatDateForInput` are not modelled; the model returns no value there.
- Floating point: percentages and budget figures are exact reals. Rounding, `NaN`, `formatFileSize` and `formatCurrency` are left out. A budget figure that the database returns as a decimal string is not modelled, and neither is the string comparison that would follow.
- `localeCompare` is modelled as a character-code order on names. Sort stability is not claimed.
- The loose `==` between a project id and the select's value is modelled as equality of the id's decimal spelling.
- The id of the server-side `DELETE` and the `PUT` access rules is read with `parseInt`. The MySQL driver's own conversion is not modelled.
- `req.session` is assumed to exist. Object-prototype keys such as `constructor` in the lookup tables are not modelled: the tables are plain maps.
- Lower-casing covers ASCII letters only.
- Every length and index counts characters, not UTF-16 code units. This applies to the password length, `JsCore.Truncated`, `ProjectsView.DescriptionLine`, `FilesView.DescriptionLine`, `DashboardView.ChartLabel` and the positions of Word inserts and deletes in `Collaboration.ApplyOperation`. A text with characters outside the Basic Multilingual Plane is cut at a different place in the browser.
- `Collaboration.Operation`: the payloads are typed, with a string content and an integer position for insert and delete, so malformed Word edits are not modelled. An insert without a position repeats the whole text on both sides of the new content, because `slice(0, undefined)` and `slice(undefined)` both keep the whole text. A delete whose content is a number slices at `NaN` and appends the whole text after the kept prefix. A delete with `null` or missing content throws on `content.length`.
- `Collaboration.JoinInfo`, `Collaboration.PollInfo`: the session's users are returned as a map keyed by id. The source returns them as an array in the order they joined.
- `AppView.ConstructionApp.ShowSection`: of the loaders that `loadSectionContent` starts, only the users permission check is composed into it. The others fetch from the server and replace the lists after the response arrives. They are not modelled, and neither is the loading spinner.
- Activity-log inserts, notifications, DOM rendering, Bootstrap modals, Chart.js options and `handleSectionFilter`'s delayed filter are presentation or I/O.
- `ServerAuth.HttpSession.Login`: the password check is a parameter, because bcrypt's compare is a foreign call. Its rejection of a non-string password is modelled as the handler's 500.
- `UserRoutes.ChangePassword`: a current password that is not a string makes bcrypt throw. The model folds this into the `matches` parameter.
- Duplicate browser definitions (`formatDateForInput`, `getProgressBarClass`, `getPriorityText`, `getRoleText`, the activity status table and the description line) are modelled once each. Which copy wins in the browser is not modelled.
- The client and supplier pages, the other route files and the setup scripts are not part of this model.

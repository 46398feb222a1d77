/** The in-memory collaborative editing engine: the document operations a
    client may send, the bounded update log that clients poll, the per-file
    session table with its join / update / save / leave handlers, and the
    permission rule that gates joining. */
module Collaboration {
  import opened JsCore

  type UserId = int

  /** A spreadsheet as the Excel loader produces it: rows of cells, both
      indexed like (possibly sparse) JavaScript arrays. */
  type Cell = JsValue
  type Row = map<int, Cell>
  type Sheet = map<int, Row>

  /** The document held by a session. `Other` is any other value a client
      supplied with a `replace` operation (`null` and `undefined` included). */
  datatype Content =
    | Word(text: string, messages: seq<string>)
    | Excel(sheets: map<string, Sheet>, activeSheet: Option<string>)
    | Other(raw: JsValue)

  /** Reading a property of `null` or `undefined` throws. */
  predicate IsNullish(c: Content)
  {
    c.Other? && (c.raw.Undefined? || c.raw.Null?)
  }

  datatype CellRef = CellRef(sheet: string, row: int, col: int)

  /** The operations a client posts; any other operation name is `Unknown`. */
  datatype Operation =
    | Replace(content: Content)
    | Insert(s: string, position: int)
    | Delete(s: string, position: int)
    | CellUpdate(value: Cell, target: Option<CellRef>)
    | Unknown(name: string)

  function OperationName(op: Operation): string
  {
    match op
    case Replace(_) => "replace"
    case Insert(_, _) => "insert"
    case Delete(_, _) => "delete"
    case CellUpdate(_, _) => "cell_update"
    case Unknown(name) => name
  }

  /** The cell that a reference designates, if its sheet, row and column exist. */
  function CellAt(c: Content, ref: CellRef): Option<Cell>
  {
    if c.Excel? && ref.sheet in c.sheets && ref.row in c.sheets[ref.sheet]
       && ref.col in c.sheets[ref.sheet][ref.row]
    then Some(c.sheets[ref.sheet][ref.row][ref.col])
    else None
  }

  /** `applyOperation`; `None` is the TypeError thrown when an edit reads the
      `type` of a null or undefined document. */
  function ApplyOperation(current: Content, op: Operation): (r: Option<Content>)
    ensures r.None? <==> IsNullish(current) && (op.Insert? || op.Delete? || op.CellUpdate?)
    ensures op.Replace? ==> r == Some(op.content)
    ensures op.Unknown? ==> r == Some(current)
    ensures (op.Insert? || op.Delete?) && !IsNullish(current) && !current.Word? ==> r == Some(current)
    ensures op.CellUpdate? && !IsNullish(current) && (!current.Excel? || op.target.None?) ==> r == Some(current)
  {
    match op
    case Replace(c) => Some(c)
    case Insert(s, pos) =>
      if IsNullish(current) then None
      else if current.Word? then
        var text := current.text;
        Some(current.(text := SliceTo(text, pos) + s + SliceFrom(text, pos)))
      else Some(current)
    case Delete(s, pos) =>
      if IsNullish(current) then None
      else if current.Word? then
        var text := current.text;
        Some(current.(text := SliceTo(text, pos) + SliceFrom(text, pos + |s|)))
      else Some(current)
    case CellUpdate(value, position) =>
      if IsNullish(current) then None
      else if current.Excel? && position.Some? && position.value.sheet in current.sheets then
        var ref := position.value;
        var sheet := current.sheets[ref.sheet];
        var row := if ref.row in sheet then sheet[ref.row] else map[];
        Some(current.(sheets := current.sheets[ref.sheet := sheet[ref.row := row[ref.col := value]]]))
      else Some(current)
    case Unknown(_) => Some(current)
  }

  /** An insertion inside the text puts `s` at `pos`: the text grows by |s|
      and the messages are kept. */
  lemma InsertIntoWord(text: string, messages: seq<string>, s: string, pos: int)
    requires 0 <= pos <= |text|
    ensures ApplyOperation(Word(text, messages), Insert(s, pos))
            == Some(Word(text[..pos] + s + text[pos..], messages))
    ensures |ApplyOperation(Word(text, messages), Insert(s, pos)).value.text| == |text| + |s|
  {
  }

  /** A deletion removes |s| characters at `pos` and keeps the text before `pos`. */
  lemma DeleteFromWord(text: string, messages: seq<string>, s: string, pos: int)
    requires 0 <= pos && pos + |s| <= |text|
    ensures ApplyOperation(Word(text, messages), Delete(s, pos))
            == Some(Word(text[..pos] + text[pos + |s|..], messages))
    ensures |ApplyOperation(Word(text, messages), Delete(s, pos)).value.text| == |text| - |s|
  {
  }

  /** Deleting what was just inserted at the same position restores the document. */
  lemma InsertThenDelete(text: string, messages: seq<string>, s: string, pos: int)
    requires 0 <= pos <= |text|
    ensures ApplyOperation(ApplyOperation(Word(text, messages), Insert(s, pos)).value, Delete(s, pos))
            == Some(Word(text, messages))
  {
    var t := text[..pos] + s + text[pos..];
    assert t[..pos] == text[..pos];
    assert t[pos + |s|..] == text[pos..];
    assert text[..pos] + text[pos..] == text;
  }

  /** A cell update writes exactly the addressed cell when its sheet exists,
      creating a missing row, and leaves every other cell and the sheet names
      as they were; with no such sheet the document is unchanged. */
  lemma {:induction false} CellUpdateOnlyTouchesTarget(c: Content, value: Cell, ref: CellRef, other: CellRef)
    requires c.Excel?
    ensures var r := ApplyOperation(c, CellUpdate(value, Some(ref))).value;
      && r.Excel? && r.sheets.Keys == c.sheets.Keys && r.activeSheet == c.activeSheet
      && (ref.sheet in c.sheets ==> CellAt(r, ref) == Some(value))
      && (ref.sheet !in c.sheets ==> r == c)
      && (other != ref ==> CellAt(r, other) == CellAt(c, other))
  {
    var r := ApplyOperation(c, CellUpdate(value, Some(ref))).value;
    if ref.sheet in c.sheets && other != ref {
      if other.sheet == ref.sheet && other.row == ref.row {
        assert other.col != ref.col;
      }
    }
  }

  /** Updates that clients poll for. */
  datatype Update =
    | ContentUpdate(userId: UserId, userName: string, operation: string, content: Content, version: int, timestamp: int)
    | FileSaved(userId: UserId, userName: string, newFileId: int, version: int, timestamp: int)
    | UserLeft(userId: UserId, userName: string, timestamp: int)

  const MaxUpdates: nat := 100

  /** `log.slice(-n)` once the log is longer than `n`. */
  function KeepLast(log: seq<Update>, n: nat): (r: seq<Update>)
    ensures |r| == if |log| <= n then |log| else n
  {
    if |log| > n then log[|log| - n..] else log
  }

  /** The kept entries are the newest ones, in their original order. */
  lemma KeepLastIsSuffix(log: seq<Update>, n: nat)
    ensures KeepLast(log, n) == log[|log| - |KeepLast(log, n)|..]
  {
  }

  /** Trimming after every push keeps exactly the most recent entries of the
      whole history: the log is never different from trimming once at the end. */
  lemma {:induction false} KeepLastPush(history: seq<Update>, u: Update, n: nat)
    requires n > 0
    ensures KeepLast(KeepLast(history, n) + [u], n) == KeepLast(history + [u], n)
  {
    var k := KeepLast(history, n);
    var a := KeepLast(k + [u], n);
    var b := KeepLast(history + [u], n);
    assert |a| == |b|;
    forall i | 0 <= i < |a| ensures a[i] == b[i] {
      if i == |a| - 1 {
        assert a[i] == u && b[i] == u;
      } else {
        assert a[i] == k[|k| + 1 - |a| + i];
        assert k[|k| + 1 - |a| + i] == history[|history| - |k| + |k| + 1 - |a| + i];
      }
    }
  }

  /** After a push the log holds at most 100 entries and ends with the new one. */
  lemma LogAfterPush(log: seq<Update>, u: Update)
    ensures var r := KeepLast(log + [u], MaxUpdates);
      |r| <= MaxUpdates && r[|r| - 1] == u && |r| == (if |log| < MaxUpdates then |log| + 1 else MaxUpdates)
  {
  }

  /** The number of content edits in a history. */
  function CountEdits(history: seq<Update>): nat
  {
    if history == [] then 0
    else (if history[0].ContentUpdate? then 1 else 0) + CountEdits(history[1..])
  }

  function UpdateTime(u: Update): int
  {
    u.timestamp
  }

  /** The `since` query parameter, once present and non-empty. */
  datatype SinceArg = Instant(ms: int) | InvalidDate

  /** `updates.filter(u => new Date(u.timestamp) > sinceDate)`; comparisons
      with an invalid date are false. */
  function UpdatesAfter(updates: seq<Update>, since: SinceArg): (r: seq<Update>)
    ensures |r| <= |updates|
    ensures since.InvalidDate? ==> r == []
    ensures forall i :: 0 <= i < |r| ==> r[i] in updates && since.Instant? && UpdateTime(r[i]) > since.ms
    ensures since.Instant? ==> forall u :: u in updates && UpdateTime(u) > since.ms ==> u in r
  {
    if updates == [] then []
    else
      var rest := UpdatesAfter(updates[1..], since);
      assert forall u :: u in updates[1..] ==> u in updates;
      if since.Instant? && UpdateTime(updates[0]) > since.ms then [updates[0]] + rest else rest
  }

  /** One unfolding step of the filter, for a list with a known head. */
  lemma UpdatesAfterCons(x: Update, rest: seq<Update>, since: SinceArg)
    ensures UpdatesAfter([x] + rest, since)
            == (if since.Instant? && UpdateTime(x) > since.ms then [x] else []) + UpdatesAfter(rest, since)
  {
    assert ([x] + rest)[0] == x && ([x] + rest)[1..] == rest;
  }

  /** The filter keeps the relative order: filtering a concatenation is
      concatenating the filtered parts. */
  lemma {:induction false} UpdatesAfterAppend(a: seq<Update>, b: seq<Update>, since: SinceArg)
    ensures UpdatesAfter(a + b, since) == UpdatesAfter(a, since) + UpdatesAfter(b, since)
  {
    if a == [] {
      assert a + b == b;
    } else {
      var x, t := a[0], a[1..];
      assert a == [x] + t;
      UpdatesAfterAppend(t, b, since);
      UpdatesAfterAppendStep(x, t, b, since);
    }
  }

  /** The inductive step of UpdatesAfterAppend, for a list with a known head. */
  lemma UpdatesAfterAppendStep(x: Update, t: seq<Update>, b: seq<Update>, since: SinceArg)
    requires UpdatesAfter(t + b, since) == UpdatesAfter(t, since) + UpdatesAfter(b, since)
    ensures UpdatesAfter([x] + t + b, since) == UpdatesAfter([x] + t, since) + UpdatesAfter(b, since)
  {
    var k := if since.Instant? && UpdateTime(x) > since.ms then [x] else [];
    ConcatAssoc([x], t, b);
    UpdatesAfterCons(x, t + b, since);
    UpdatesAfterCons(x, t, since);
    ConcatAssoc(k, UpdatesAfter(t, since), UpdatesAfter(b, since));
  }

  lemma ConcatAssoc(a: seq<Update>, b: seq<Update>, c: seq<Update>)
    ensures a + (b + c) == a + b + c
  {
  }

  /** Every later update is kept as often as it occurs, and no other one. */
  lemma {:induction false} UpdatesAfterCounts(updates: seq<Update>, since: SinceArg, u: Update)
    ensures multiset(UpdatesAfter(updates, since))[u]
            == if since.Instant? && UpdateTime(u) > since.ms then multiset(updates)[u] else 0
  {
    if updates != [] {
      var x, t := updates[0], updates[1..];
      var k := if since.Instant? && UpdateTime(x) > since.ms then [x] else [];
      assert updates == [x] + t;
      UpdatesAfterCons(x, t, since);
      UpdatesAfterCounts(t, since, u);
      assert multiset(k + UpdatesAfter(t, since)) == multiset(k) + multiset(UpdatesAfter(t, since));
      assert multiset(updates) == multiset([x]) + multiset(t);
    }
  }

  /** The polled list: everything without `since`, else the later updates. */
  function PolledUpdates(updates: seq<Update>, since: Option<SinceArg>): (r: seq<Update>)
    ensures since.None? ==> r == updates
    ensures since == Some(InvalidDate) ==> r == []
  {
    if since.None? then updates else UpdatesAfter(updates, since.value)
  }

  /** A row of the `files` table as far as the engine reads it. */
  datatype FileRecord = FileRecord(id: int, originalName: string, fileType: string, uploadedBy: Option<UserId>)

  const ReadLevels: set<string> := {"read", "write", "admin"}
  const WriteLevels: set<string> := {"write", "admin"}

  /** `checkFilePermission`: the uploader always has access; otherwise the
      first permission row of this user for this file decides, `read` being
      granted by read/write/admin and `write` by write/admin. */
  function CheckFilePermission(file: Option<FileRecord>, permissionRows: seq<string>, userId: UserId, permissionType: string): (r: bool)
    ensures r && !(file.Some? && file.value.uploadedBy == Some(userId)) ==> |permissionRows| > 0
    ensures permissionType != "read" && permissionType != "write"
            ==> (r <==> file.Some? && file.value.uploadedBy == Some(userId))
  {
    if file.Some? && file.value.uploadedBy == Some(userId) then true
    else if |permissionRows| > 0 then
      var level := permissionRows[0];
      if permissionType == "read" then level in ReadLevels
      else if permissionType == "write" then level in WriteLevels
      else false
    else false
  }

  /** Write access implies read access. */
  lemma WriteImpliesRead(file: Option<FileRecord>, rows: seq<string>, userId: UserId)
    ensures CheckFilePermission(file, rows, userId, "write") ==> CheckFilePermission(file, rows, userId, "read")
  {
  }

  /** The uploader is always allowed; anyone else without a permission row is
      refused; otherwise the first row grants write for write/admin and read
      for read/write/admin. */
  lemma PermissionDefaults(file: Option<FileRecord>, rows: seq<string>, userId: UserId, permissionType: string)
    ensures file.Some? && file.value.uploadedBy == Some(userId) ==> CheckFilePermission(file, rows, userId, permissionType)
    ensures !(file.Some? && file.value.uploadedBy == Some(userId)) && rows == []
            ==> !CheckFilePermission(file, rows, userId, permissionType)
    ensures !(file.Some? && file.value.uploadedBy == Some(userId)) && rows != []
            ==> (CheckFilePermission(file, rows, userId, "write") <==> rows[0] == "write" || rows[0] == "admin")
    ensures !(file.Some? && file.value.uploadedBy == Some(userId)) && rows != []
            ==> (CheckFilePermission(file, rows, userId, "read") <==> rows[0] in ReadLevels)
  {
  }

  datatype SessionUser = SessionUser(id: UserId, name: string, joinedAt: int)

  /** One editing session of one file. */
  datatype Session = Session(id: string, fileName: string, fileType: string, content: Content,
                             users: map<UserId, SessionUser>, version: int, lastModified: int,
                             updates: seq<Update>)

  /** `createCollaborationSession`, with the loaded document supplied. */
  function NewSession(id: string, file: FileRecord, content: Content, now: int): Session
  {
    Session(id, file.originalName, file.fileType, content, map[], 1, now, [])
  }

  /** `broadcastUpdate`: push, then keep the last 100 entries. */
  function Broadcast(s: Session, u: Update): (r: Session)
    ensures r.(updates := s.updates) == s
    ensures 0 < |r.updates| <= MaxUpdates && r.updates[|r.updates| - 1] == u
  {
    KeepLastIsSuffix(s.updates + [u], MaxUpdates);
    s.(updates := KeepLast(s.updates + [u], MaxUpdates))
  }

  /** What a session keeps about its history: the log is the tail of every
      update broadcast in it, the version counts one more than its edits, and
      somebody is in it. */
  ghost predicate SessionInvariant(s: Session, history: seq<Update>)
  {
    s.updates == KeepLast(history, MaxUpdates) && s.version == 1 + CountEdits(history) && |s.users| > 0
  }

  lemma {:induction false} CountEditsPush(history: seq<Update>, u: Update)
    ensures CountEdits(history + [u]) == CountEdits(history) + (if u.ContentUpdate? then 1 else 0)
  {
    if history != [] {
      CountEditsPush(history[1..], u);
      assert (history + [u])[1..] == history[1..] + [u];
    }
  }

  /** Broadcasting from a session whose log is the tail of its history keeps
      the log the tail of the extended history; with the version raised
      exactly for an edit, the whole session invariant is kept. */
  lemma BroadcastKeepsInvariant(s: Session, history: seq<Update>, u: Update, t: Session)
    requires s.updates == KeepLast(history, MaxUpdates) && t.updates == s.updates
    requires t.version == 1 + CountEdits(history) + (if u.ContentUpdate? then 1 else 0) && |t.users| > 0
    ensures Broadcast(t, u).updates == KeepLast(history + [u], MaxUpdates)
    ensures SessionInvariant(Broadcast(t, u), history + [u])
  {
    KeepLastPush(history, u, MaxUpdates);
    CountEditsPush(history, u);
  }

  /** `order` lists the keys exactly once each, as a JavaScript Map iterates them. */
  predicate KeyOrder(order: seq<string>, keys: set<string>)
  {
    && (forall i | 0 <= i < |order| :: order[i] in keys)
    && (forall k | k in keys :: k in order)
    && (forall i, j | 0 <= i < j < |order| :: order[i] != order[j])
  }

  lemma KeyOrderAdd(order: seq<string>, keys: set<string>, k: string)
    requires KeyOrder(order, keys) && k !in keys
    ensures KeyOrder(order + [k], keys + {k})
  {
  }

  predicate Distinct(s: seq<string>)
  {
    forall i, j | 0 <= i < j < |s| :: s[i] != s[j]
  }

  /** `order` without `key`, keeping the order of the others. */
  function RemoveKey(order: seq<string>, key: string): (r: seq<string>)
    ensures forall x :: x in r <==> x in order && x != key
    ensures Distinct(order) ==> Distinct(r)
  {
    if order == [] then []
    else if order[0] == key then RemoveKey(order[1..], key)
    else
      var rest := RemoveKey(order[1..], key);
      var r := [order[0]] + rest;
      assert Distinct(order) ==> Distinct(r) by {
        if Distinct(order) {
          assert order[0] !in order[1..];
          forall i, j | 0 <= i < j < |r| ensures r[i] != r[j] {
            assert r[j] == rest[j - 1] && rest[j - 1] in rest;
          }
        }
      }
      r
  }

  lemma KeyOrderRemove(order: seq<string>, keys: set<string>, k: string)
    requires KeyOrder(order, keys)
    ensures KeyOrder(RemoveKey(order, k), keys - {k})
  {
    var r := RemoveKey(order, k);
    assert Distinct(order);
    forall i | 0 <= i < |r| ensures r[i] in keys - {k} {
      assert r[i] in r;
    }
  }

  /** The session table: a history per live session, each session keeping
      its invariant, and the iteration order listing the keys once each. */
  ghost predicate TableValid(sessions: map<string, Session>, histories: map<string, seq<Update>>, order: seq<string>)
  {
    && histories.Keys == sessions.Keys
    && (forall f | f in sessions :: SessionInvariant(sessions[f], histories[f]))
    && KeyOrder(order, sessions.Keys)
  }

  lemma TableReplace(sessions: map<string, Session>, histories: map<string, seq<Update>>, order: seq<string>,
                     k: string, s: Session, h: seq<Update>)
    requires TableValid(sessions, histories, order) && k in sessions && SessionInvariant(s, h)
    ensures TableValid(sessions[k := s], histories[k := h], order)
  {
    var s2 := sessions[k := s];
    var h2 := histories[k := h];
    assert s2.Keys == sessions.Keys && h2.Keys == histories.Keys;
    forall f | f in s2 ensures SessionInvariant(s2[f], h2[f]) {
      if f != k {
        assert s2[f] == sessions[f] && h2[f] == histories[f];
      }
    }
  }

  lemma TableAdd(sessions: map<string, Session>, histories: map<string, seq<Update>>, order: seq<string>,
                 k: string, s: Session, h: seq<Update>)
    requires TableValid(sessions, histories, order) && k !in sessions && SessionInvariant(s, h)
    ensures TableValid(sessions[k := s], histories[k := h], order + [k])
  {
    var s2 := sessions[k := s];
    var h2 := histories[k := h];
    assert s2.Keys == sessions.Keys + {k} && h2.Keys == histories.Keys + {k};
    forall f | f in s2 ensures SessionInvariant(s2[f], h2[f]) {
      if f != k {
        assert s2[f] == sessions[f] && h2[f] == histories[f];
      }
    }
    KeyOrderAdd(order, sessions.Keys, k);
  }

  lemma TableRemove(sessions: map<string, Session>, histories: map<string, seq<Update>>, order: seq<string>, k: string)
    requires TableValid(sessions, histories, order)
    ensures TableValid(sessions - {k}, histories - {k}, RemoveKey(order, k))
  {
    var s2 := sessions - {k};
    var h2 := histories - {k};
    assert s2.Keys == sessions.Keys - {k} && h2.Keys == histories.Keys - {k};
    forall f | f in s2 ensures SessionInvariant(s2[f], h2[f]) {
      assert s2[f] == sessions[f] && h2[f] == histories[f];
    }
    KeyOrderRemove(order, sessions.Keys, k);
  }

  lemma {:induction false} DistinctCardinality(s: seq<string>)
    requires forall i, j | 0 <= i < j < |s| :: s[i] != s[j]
    ensures |set i | 0 <= i < |s| :: s[i]| == |s|
  {
    if s != [] {
      var init := s[..|s| - 1];
      DistinctCardinality(init);
      var a := set i | 0 <= i < |init| :: init[i];
      var b := set i | 0 <= i < |s| :: s[i];
      assert b == a + {s[|s| - 1]};
      assert s[|s| - 1] !in a;
    }
  }

  lemma KeyOrderLength(order: seq<string>, keys: set<string>)
    requires KeyOrder(order, keys)
    ensures |order| == |keys|
  {
    assert (set i | 0 <= i < |order| :: order[i]) == keys;
    DistinctCardinality(order);
  }

  /** The save helpers only succeed on a document of the file's kind: the
      Excel writer lists `content.sheets` and the Word writer writes
      `content.text`, both of which throw on anything else; a file of another
      type is not written at all, so the size lookup that follows throws. */
  predicate Saveable(content: Content, fileType: string)
  {
    (fileType == "excel" && content.Excel?) || (fileType == "word" && content.Word?)
  }

  datatype JoinInfo = JoinInfo(sessionId: string, fileType: string, fileName: string, content: Content,
                               users: map<UserId, SessionUser>, lastModified: int)
  datatype VersionInfo = VersionInfo(version: int, lastModified: int)
  datatype SaveInfo = SaveInfo(newFileId: int, version: int)
  datatype PollInfo = PollInfo(updates: seq<Update>, users: map<UserId, SessionUser>, version: int)
  datatype SessionSummary = SessionSummary(fileId: string, sessionId: string, fileName: string, fileType: string,
                                           userCount: nat, lastModified: int)

  /** The summaries, in the order of `ord`, of the sessions that have the user as a member. */
  function Summaries(sessions: map<string, Session>, ord: seq<string>, userId: UserId): seq<SessionSummary>
    requires forall i | 0 <= i < |ord| :: ord[i] in sessions
  {
    if ord == [] then []
    else
      var f := ord[|ord| - 1];
      var s := sessions[f];
      var before := Summaries(sessions, ord[..|ord| - 1], userId);
      if userId in s.users
      then before + [SessionSummary(f, s.id, s.fileName, s.fileType, |s.users|, s.lastModified)]
      else before
  }

  /** A session is listed exactly when the user is in it, and every entry
      carries that session's current user count. */
  lemma {:induction false} SummariesMembership(sessions: map<string, Session>, ord: seq<string>, userId: UserId, f: string)
    requires forall i | 0 <= i < |ord| :: ord[i] in sessions
    ensures var all := Summaries(sessions, ord, userId);
      && |all| <= |ord|
      && ((exists i :: 0 <= i < |all| && all[i].fileId == f) <==> f in ord && userId in sessions[f].users)
      && (forall i :: 0 <= i < |all| ==> all[i].fileId in sessions && all[i].userCount == |sessions[all[i].fileId].users|)
  {
    if ord != [] {
      var prefix := ord[..|ord| - 1];
      SummariesMembership(sessions, prefix, userId, f);
      assert ord == prefix + [ord[|ord| - 1]];
      var before := Summaries(sessions, prefix, userId);
      var all := Summaries(sessions, ord, userId);
      if exists i :: 0 <= i < |all| && all[i].fileId == f {
        var i :| 0 <= i < |all| && all[i].fileId == f;
        if i < |before| {
          assert before[i].fileId == f;
        }
      }
      if f in ord && userId in sessions[f].users {
        if f in prefix {
          var i :| 0 <= i < |before| && before[i].fileId == f;
          assert all[i].fileId == f;
        } else {
          assert all[|all| - 1].fileId == f;
        }
      }
    }
  }

  /** The table of active sessions, keyed by the file id of the request path. */
  /** Listed in table order: a session is listed exactly when the user is in
      it, at most once per session, each with its current user count. */
  lemma SummariesOfTable(sessions: map<string, Session>, order: seq<string>, userId: UserId)
    requires KeyOrder(order, sessions.Keys)
    ensures var r := Summaries(sessions, order, userId);
      && |r| <= |sessions|
      && (forall f :: (exists i :: 0 <= i < |r| && r[i].fileId == f) <==> f in sessions && userId in sessions[f].users)
      && (forall i :: 0 <= i < |r| ==> r[i].fileId in sessions && r[i].userCount == |sessions[r[i].fileId].users|)
  {
    var r := Summaries(sessions, order, userId);
    forall f ensures (exists i :: 0 <= i < |r| && r[i].fileId == f) <==> f in sessions && userId in sessions[f].users {
      SummariesMembership(sessions, order, userId, f);
    }
    SummariesMembership(sessions, order, userId, "");
    KeyOrderLength(order, sessions.Keys);
  }

  /** The iteration of the session table in key order, keeping the
      sessions that have the user as a member. */
  method CollectSummaries(sessions: map<string, Session>, order: seq<string>, userId: UserId)
    returns (r: seq<SessionSummary>)
    requires forall i | 0 <= i < |order| :: order[i] in sessions
    ensures r == Summaries(sessions, order, userId)
  {
    r := [];
    var i := 0;
    while i < |order|
      invariant 0 <= i <= |order|
      invariant r == Summaries(sessions, order[..i], userId)
    {
      var f := order[i];
      var s := sessions[f];
      if userId in s.users {
        r := r + [SessionSummary(f, s.id, s.fileName, s.fileType, |s.users|, s.lastModified)];
      }
      assert order[..i + 1][..i] == order[..i];
      i := i + 1;
    }
    assert order[..i] == order;
  }

  class CollaborationServer {
    var sessions: map<string, Session>
    /** The keys of `sessions` in insertion order, the order the map iterates in. */
    var order: seq<string>
    /** Every update broadcast in each live session. */
    ghost var histories: map<string, seq<Update>>

    ghost predicate Valid()
      reads this
    {
      TableValid(sessions, histories, order)
    }

    constructor ()
      ensures Valid() && sessions == map[] && order == []
    {
      sessions := map[];
      order := [];
      histories := map[];
    }

    /** `collaborationSessions.set(fileId, s)` on a live session. */
    method Put(fileId: string, s: Session, ghost h: seq<Update>)
      requires Valid() && fileId in sessions && SessionInvariant(s, h)
      modifies this
      ensures Valid()
      ensures sessions == old(sessions)[fileId := s] && histories == old(histories)[fileId := h] && order == old(order)
    {
      TableReplace(sessions, histories, order, fileId, s, h);
      sessions := sessions[fileId := s];
      histories := histories[fileId := h];
    }

    /** `broadcastUpdate`: `t` is the live session of `fileId` after the
        handler's own changes (same log; version raised exactly for an edit;
        still somebody in it); `u` is appended to its log and history. */
    method Publish(fileId: string, t: Session, u: Update)
      requires Valid() && fileId in sessions
      requires t.updates == sessions[fileId].updates && |t.users| > 0
      requires t.version == sessions[fileId].version + (if u.ContentUpdate? then 1 else 0)
      modifies this
      ensures Valid()
      ensures sessions == old(sessions)[fileId := Broadcast(t, u)] && order == old(order)
      ensures histories == old(histories)[fileId := old(histories)[fileId] + [u]]
    {
      BroadcastKeepsInvariant(sessions[fileId], histories[fileId], u, t);
      Put(fileId, Broadcast(t, u), histories[fileId] + [u]);
    }

    /** `collaborationSessions.set(fileId, s)` for a new key, which goes last. */
    method Add(fileId: string, s: Session)
      requires Valid() && fileId !in sessions && SessionInvariant(s, [])
      modifies this
      ensures Valid()
      ensures sessions == old(sessions)[fileId := s] && histories == old(histories)[fileId := []]
      ensures order == old(order) + [fileId]
    {
      TableAdd(sessions, histories, order, fileId, s, []);
      sessions := sessions[fileId := s];
      histories := histories[fileId := []];
      order := order + [fileId];
    }

    /** `collaborationSessions.delete(fileId)`. */
    method Drop(fileId: string)
      requires Valid()
      modifies this
      ensures Valid()
      ensures sessions == old(sessions) - {fileId} && order == RemoveKey(old(order), fileId)
    {
      TableRemove(sessions, histories, order, fileId);
      sessions := sessions - {fileId};
      histories := histories - {fileId};
      order := RemoveKey(order, fileId);
    }

    /** GET /session/:fileId: needs write permission, an existing file and an
        Excel or Word type; creates the session on first use and adds the
        caller, keyed by id. `loaded` is the document read from disk for a
        first join (none when reading fails): sheets for an Excel file, text
        for a Word file. */
    method Join(fileId: string, userId: UserId, userName: string, file: Option<FileRecord>,
                permissionRows: seq<string>, loaded: Option<Content>, newSessionId: string, now: int)
      returns (r: Result<JoinInfo>)
      requires Valid()
      requires file.Some? && loaded.Some? && (file.value.fileType == "excel" || file.value.fileType == "word")
               ==> Saveable(loaded.value, file.value.fileType)
      modifies this
      ensures Valid()
      ensures !CheckFilePermission(file, permissionRows, userId, "write") ==> r.Fail? && r.status == 403
      ensures CheckFilePermission(file, permissionRows, userId, "write") && file.None? ==> r.Fail? && r.status == 404
      ensures (CheckFilePermission(file, permissionRows, userId, "write") && file.Some?
               && file.value.fileType != "excel" && file.value.fileType != "word") ==> r.Fail? && r.status == 400
      ensures r.Ok? <==> CheckFilePermission(file, permissionRows, userId, "write") && file.Some?
                         && (file.value.fileType == "excel" || file.value.fileType == "word")
                         && (fileId in old(sessions) || loaded.Some?)
      ensures r.Fail? ==> sessions == old(sessions) && order == old(order)
      ensures r.Ok? ==>
                && fileId in sessions
                && sessions == old(sessions)[fileId := sessions[fileId]]
                && sessions[fileId].users == (if fileId in old(sessions) then old(sessions)[fileId].users else map[])
                                             [userId := SessionUser(userId, userName, now)]
                && r.value.users == sessions[fileId].users && r.value.content == sessions[fileId].content
      ensures r.Ok? && fileId in old(sessions) ==>
                sessions[fileId] == old(sessions)[fileId].(users := sessions[fileId].users) && order == old(order)
      ensures r.Ok? && fileId !in old(sessions) ==>
                && sessions[fileId].version == 1 && sessions[fileId].updates == []
                && sessions[fileId].content == loaded.value && order == old(order) + [fileId]
    {
      if !CheckFilePermission(file, permissionRows, userId, "write") {
        return Fail(403, "No tienes permisos para editar este archivo");
      }
      if file.None? {
        return Fail(404, "Archivo no encontrado");
      }
      var record := file.value;
      if record.fileType != "excel" && record.fileType != "word" {
        return Fail(400, "Tipo de archivo no soportado para colaboración");
      }
      var session: Session;
      if fileId in sessions {
        session := sessions[fileId];
        session := session.(users := session.users[userId := SessionUser(userId, userName, now)]);
        Put(fileId, session, histories[fileId]);
      } else {
        if loaded.None? {
          return Fail(500, "Error interno del servidor");
        }
        session := NewSession(newSessionId, record, loaded.value, now);
        session := session.(users := session.users[userId := SessionUser(userId, userName, now)]);
        Add(fileId, session);
      }
      r := Ok(JoinInfo(session.id, record.fileType, record.originalName, session.content, session.users, session.lastModified));
    }

    /** POST /session/:fileId/update: the session must exist (404) and the
        caller must be in it (403); the operation is applied, the version goes
        up by one and the new content is broadcast. */
    method UpdateContent(fileId: string, userId: UserId, userName: string, op: Operation, now: int)
      returns (r: Result<VersionInfo>)
      requires Valid()
      modifies this
      ensures Valid()
      ensures order == old(order) && sessions.Keys == old(sessions).Keys
      ensures fileId !in sessions ==> r.Fail? && r.status == 404
      ensures fileId in sessions && userId !in old(sessions)[fileId].users ==> r.Fail? && r.status == 403
      ensures r.Ok? <==> fileId in sessions && userId in old(sessions)[fileId].users
                         && ApplyOperation(old(sessions)[fileId].content, op).Some?
      ensures r.Fail? ==> sessions == old(sessions)
      ensures r.Ok? ==>
                var s := old(sessions)[fileId];
                var u := ContentUpdate(userId, userName, OperationName(op), ApplyOperation(s.content, op).value,
                                       s.version + 1, now);
                && sessions == old(sessions)[fileId := sessions[fileId]]
                && sessions[fileId] == Broadcast(s.(content := u.content, version := u.version, lastModified := now), u)
                && histories[fileId] == old(histories)[fileId] + [u]
                && r.value == VersionInfo(s.version + 1, now)
    {
      if fileId !in sessions {
        return Fail(404, "Sesión de colaboración no encontrada");
      }
      var session := sessions[fileId];
      if userId !in session.users {
        return Fail(403, "No estás en esta sesión de colaboración");
      }
      var updated := ApplyOperation(session.content, op);
      if updated.None? {
        return Fail(500, "Error interno del servidor");
      }
      var edited := session.(content := updated.value, lastModified := now, version := session.version + 1);
      var u := ContentUpdate(userId, userName, OperationName(op), updated.value, edited.version, now);
      Publish(fileId, edited, u);
      r := Ok(VersionInfo(edited.version, now));
    }

    /** POST /session/:fileId/save: needs the session and the file row, but
        not membership; writes the document and announces the saved copy
        without changing the version. `written` is whether the file system
        and the spreadsheet writer accepted a document of the right shape. */
    method Save(fileId: string, userId: UserId, userName: string, file: Option<FileRecord>, written: bool,
                newFileId: int, now: int)
      returns (r: Result<SaveInfo>)
      requires Valid()
      modifies this
      ensures Valid()
      ensures order == old(order) && sessions.Keys == old(sessions).Keys
      ensures r.Ok? <==> fileId in sessions && file.Some? && Saveable(old(sessions)[fileId].content, file.value.fileType)
                         && written
      ensures fileId !in sessions ==> r.Fail? && r.status == 404
      ensures fileId in sessions && file.None? ==> r.Fail? && r.status == 404
      ensures fileId in sessions && file.Some? && !(Saveable(old(sessions)[fileId].content, file.value.fileType) && written)
              ==> r.Fail? && r.status == 500
      ensures r.Fail? ==> sessions == old(sessions)
      ensures r.Ok? ==>
                var s := old(sessions)[fileId];
                var u := FileSaved(userId, userName, newFileId, s.version, now);
                && sessions == old(sessions)[fileId := Broadcast(s, u)]
                && histories[fileId] == old(histories)[fileId] + [u]
                && r.value == SaveInfo(newFileId, s.version)
    {
      if fileId !in sessions {
        r := Fail(404, "Sesión de colaboración no encontrada");
      } else if file.None? {
        r := Fail(404, "Archivo no encontrado");
      } else if !Saveable(sessions[fileId].content, file.value.fileType) || !written {
        // the writer throws, or nothing is written and reading the new file's size throws
        r := Fail(500, "Error interno del servidor");
      } else {
        var session := sessions[fileId];
        var u := FileSaved(userId, userName, newFileId, session.version, now);
        Publish(fileId, session, u);
        r := Ok(SaveInfo(newFileId, session.version));
      }
    }

    /** POST /session/:fileId/leave: a member is removed and the departure
        broadcast; the session is dropped exactly when no user is left. */
    method Leave(fileId: string, userId: UserId, userName: string, now: int)
      requires Valid()
      modifies this
      ensures Valid()
      ensures !(fileId in old(sessions) && userId in old(sessions)[fileId].users) ==>
                sessions == old(sessions) && order == old(order)
      ensures fileId in old(sessions) && userId in old(sessions)[fileId].users ==>
                var s := old(sessions)[fileId];
                var left := Broadcast(s.(users := s.users - {userId}), UserLeft(userId, userName, now));
                if left.users == map[]
                then sessions == old(sessions) - {fileId} && order == RemoveKey(old(order), fileId)
                else sessions == old(sessions)[fileId := left] && order == old(order)
    {
      if fileId in sessions && userId in sessions[fileId].users {
        var session := sessions[fileId];
        var u := UserLeft(userId, userName, now);
        var remaining := session.(users := session.users - {userId});
        if |remaining.users| == 0 {
          assert remaining.users == map[];
          Drop(fileId);
        } else {
          Publish(fileId, remaining, u);
        }
      }
    }

    /** GET /sessions: the sessions the caller is in, in table order. */
    method ListSessions(userId: UserId) returns (r: seq<SessionSummary>)
      requires Valid()
      ensures r == Summaries(sessions, order, userId)
      ensures |r| <= |sessions|
      ensures forall f :: (exists i :: 0 <= i < |r| && r[i].fileId == f) <==> f in sessions && userId in sessions[f].users
      ensures forall i :: 0 <= i < |r| ==> r[i].fileId in sessions && r[i].userCount == |sessions[r[i].fileId].users|
    {
      r := CollectSummaries(sessions, order, userId);
      SummariesOfTable(sessions, order, userId);
    }

    /** GET /session/:fileId/updates: members only; the log, filtered by `since`. */
    function Poll(fileId: string, userId: UserId, since: Option<SinceArg>): (r: Result<PollInfo>)
      reads this
      ensures fileId !in sessions ==> r.Fail? && r.status == 404
      ensures fileId in sessions && userId !in sessions[fileId].users ==> r.Fail? && r.status == 403
      ensures r.Ok? ==> fileId in sessions && userId in sessions[fileId].users
                        && r.value.version == sessions[fileId].version
                        && |r.value.updates| <= |sessions[fileId].updates|
                        && (forall u :: u in r.value.updates ==> u in sessions[fileId].updates)
      ensures fileId in sessions && userId in sessions[fileId].users ==>
                r.Ok? && r.value.updates == PolledUpdates(sessions[fileId].updates, since)
      ensures fileId in sessions && userId in sessions[fileId].users && since.None? ==>
                r.Ok? && r.value.updates == sessions[fileId].updates
    {
      if fileId !in sessions then Fail(404, "Sesión no encontrada")
      else
        var s := sessions[fileId];
        if userId !in s.users then Fail(403, "No estás en esta sesión")
        else Ok(PollInfo(PolledUpdates(s.updates, since), s.users, s.version))
    }
  }
}

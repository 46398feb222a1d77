/** The server's file routes: the extension of an uploaded file name, the
    classification of a file into one of six types from its MIME type and
    extension, and the upload handler's per-file result list. */
module FileRoutes {
  import opened JsCore

  /** The part of a path after its last '/'. */
  function BaseName(path: string): (r: string)
    ensures '/' !in r
    ensures |r| <= |path| && r == path[|path| - |r|..]
    ensures |r| == |path| || path[|path| - |r| - 1] == '/'
  {
    if path == [] then []
    else if path[|path| - 1] == '/' then []
    else BaseName(path[..|path| - 1]) + [path[|path| - 1]]
  }

  /** The index of the last occurrence of `c` in `s`. */
  function LastIndexOf(s: string, c: char): (r: Option<nat>)
    ensures r.Some? ==> r.value < |s| && s[r.value] == c && forall j :: r.value < j < |s| ==> s[j] != c
    ensures r.None? ==> c !in s
  {
    if s == [] then None
    else if s[|s| - 1] == c then Some(|s| - 1)
    else
      var r := LastIndexOf(s[..|s| - 1], c);
      assert forall x :: x in s[..|s| - 1] ==> x in s;
      assert s == s[..|s| - 1] + [s[|s| - 1]];
      r
  }

  /** The extension of one path segment: from its last '.' to its end;
      empty when it has no '.', starts with its only '.', or is "..". */
  function SegmentExt(base: string): (r: string)
    ensures r == "" || (r[0] == '.' && '.' !in r[1..] && |r| <= |base| && r == base[|base| - |r|..])
  {
    match LastIndexOf(base, '.')
    case None => ""
    case Some(dot) =>
      if dot == 0 || base == ".." then ""
      else
        assert forall x :: x in base[dot..][1..] ==> x in base[dot + 1..];
        base[dot..]
  }

  /** `path.extname`: the extension of the last path segment. */
  function ExtName(path: string): (r: string)
    ensures r == "" || (r[0] == '.' && '.' !in r[1..] && '/' !in r)
  {
    var base := BaseName(path);
    var r := SegmentExt(base);
    assert forall x :: x in r ==> x in base;
    r
  }

  lemma {:induction false} BaseNameWithoutSlash(path: string)
    requires '/' !in path
    ensures BaseName(path) == path
  {
    if path != [] {
      assert forall x :: x in path[..|path| - 1] ==> x in path;
      BaseNameWithoutSlash(path[..|path| - 1]);
    }
  }

  /** A file name `stem + ext`, where `ext` is a dot followed by at least one
      character and no further dot, has extension `ext`. */
  lemma ExtNameOfName(stem: string, ext: string)
    requires |stem| > 0 && |ext| >= 2 && ext[0] == '.' && '.' !in ext[1..]
    requires '/' !in stem + ext
    ensures ExtName(stem + ext) == ext
  {
    var name := stem + ext;
    BaseNameWithoutSlash(name);
    assert name[|stem|] == '.' && name[|stem|] in name;
    forall j | |stem| < j < |name| ensures name[j] != '.' {
      assert name[j] == ext[j - |stem|] && ext[j - |stem|] in ext[1..];
    }
    var last := LastIndexOf(name, '.');
    assert last == Some(|stem|);
    assert name != "..";
    assert name[|stem|..] == ext;
  }

  const FileTypes: set<string> := {"image", "excel", "word", "pdf", "cad", "other"}

  const ImageMarker := "image/"
  const SpreadsheetMarker := "application/vnd.openxmlformats-officedocument.spreadsheetml"
  const LegacyExcelMarker := "application/vnd.ms-excel"
  const WordprocessingMarker := "application/vnd.openxmlformats-officedocument.wordprocessingml"
  const LegacyWordMarker := "application/msword"
  const PdfMarker := "application/pdf"

  predicate IsExcelMime(mimetype: string)
  {
    Contains(mimetype, SpreadsheetMarker) || Contains(mimetype, LegacyExcelMarker)
  }

  predicate IsWordMime(mimetype: string)
  {
    Contains(mimetype, WordprocessingMarker) || Contains(mimetype, LegacyWordMarker)
  }

  const CadExtensions: set<string> := {".dwg", ".dxf", ".step", ".iges"}

  /** The rule chain of `getFileType` on a MIME type and a lower-cased
      extension: the first matching rule wins, in the order image, Excel,
      Word, PDF, CAD. */
  function Classify(mimetype: string, ext: string): (r: string)
    ensures r in FileTypes
  {
    if Contains(mimetype, ImageMarker) then "image"
    else if IsExcelMime(mimetype) || ext == ".xlsx" || ext == ".xls" then "excel"
    else if IsWordMime(mimetype) || ext == ".docx" || ext == ".doc" then "word"
    else if Contains(mimetype, PdfMarker) then "pdf"
    else if ext in CadExtensions then "cad"
    else "other"
  }

  /** `getFileType`: the extension is compared in lower case. */
  function GetFileType(mimetype: string, filename: string): (r: string)
    ensures r in FileTypes
  {
    Classify(mimetype, LowerAscii(ExtName(filename)))
  }

  /** An image MIME type wins over any extension. */
  lemma ImageDecidedFirst(mimetype: string, filename: string)
    requires Contains(mimetype, ImageMarker)
    ensures GetFileType(mimetype, filename) == "image"
  {
  }

  /** Excel is decided by its MIME types or extensions before Word is considered. */
  lemma ExcelBeforeWord(mimetype: string, filename: string)
    ensures var ext := LowerAscii(ExtName(filename));
      GetFileType(mimetype, filename) == "excel"
      <==> !Contains(mimetype, ImageMarker) && (IsExcelMime(mimetype) || ext == ".xlsx" || ext == ".xls")
  {
  }

  lemma WordAfterExcel(mimetype: string, filename: string)
    ensures var ext := LowerAscii(ExtName(filename));
      GetFileType(mimetype, filename) == "word"
      <==> && !Contains(mimetype, ImageMarker) && !IsExcelMime(mimetype) && ext != ".xlsx" && ext != ".xls"
           && (IsWordMime(mimetype) || ext == ".docx" || ext == ".doc")
  {
  }

  /** PDF is recognised only by MIME type and CAD only by extension. */
  lemma PdfByMimeCadByExtension(mimetype: string, filename: string)
    ensures var ext := LowerAscii(ExtName(filename));
      && (GetFileType(mimetype, filename) == "pdf" ==> Contains(mimetype, PdfMarker))
      && (GetFileType(mimetype, filename) == "cad" ==> ext in CadExtensions)
      && (GetFileType(mimetype, filename) == "other" ==> !Contains(mimetype, PdfMarker) && ext !in CadExtensions)
  {
    ClassifyPdfCad(mimetype, LowerAscii(ExtName(filename)));
  }

  /** The same, on the rule chain itself. */
  lemma ClassifyPdfCad(mimetype: string, ext: string)
    ensures Classify(mimetype, ext) == "pdf" ==> Contains(mimetype, PdfMarker)
    ensures Classify(mimetype, ext) == "cad" ==> ext in CadExtensions
    ensures Classify(mimetype, ext) == "other" ==> !Contains(mimetype, PdfMarker) && ext !in CadExtensions
  {
  }

  /** Only the lower-cased extension of the name matters. */
  lemma ExtensionCaseInsensitive(mimetype: string, a: string, b: string)
    requires LowerAscii(ExtName(a)) == LowerAscii(ExtName(b))
    ensures GetFileType(mimetype, a) == GetFileType(mimetype, b)
  {
  }

  /** A character other than '/' added at the end joins the last segment. */
  lemma BaseNameSnoc(p: string, x: char)
    requires x != '/'
    ensures BaseName(p + [x]) == BaseName(p) + [x]
  {
    assert (p + [x])[..|p|] == p;
  }

  lemma {:induction false} BaseNameLower(path: string)
    ensures BaseName(LowerAscii(path)) == LowerAscii(BaseName(path))
  {
    if path != [] {
      var p, x := path[..|path| - 1], path[|path| - 1];
      assert path == p + [x];
      LowerAsciiSnoc(p, x);
      LowerCharMark(x, '/');
      if x != '/' {
        BaseNameLower(p);
        BaseNameSnoc(p, x);
        BaseNameSnoc(LowerAscii(p), LowerChar(x));
        LowerAsciiSnoc(BaseName(p), x);
      } else {
        assert LowerAscii(path)[|path| - 1] == '/';
      }
    }
  }

  lemma {:induction false} LastDotLower(s: string)
    ensures LastIndexOf(LowerAscii(s), '.') == LastIndexOf(s, '.')
  {
    if s != [] {
      LowerAsciiKeepsMark(s, |s| - 1, '.');
      LowerAsciiSlice(s, 0, |s| - 1);
      LastDotLower(s[..|s| - 1]);
    }
  }

  /** The extension of a lower-cased name is the lower-cased extension. */
  lemma SegmentExtLower(base: string)
    ensures SegmentExt(LowerAscii(base)) == LowerAscii(SegmentExt(base))
  {
    LastDotLower(base);
    LowerAsciiDotDot(base);
    match LastIndexOf(base, '.')
    case None =>
      assert LowerAscii([]) == [];
    case Some(dot) =>
      if dot == 0 || base == ".." {
        assert LowerAscii([]) == [];
      } else {
        LowerAsciiSlice(base, dot, |base|);
        assert base[dot..|base|] == base[dot..];
        assert LowerAscii(base)[dot..|base|] == LowerAscii(base)[dot..];
      }
  }

  /** The extension of a lower-cased name is the lower-cased extension. */
  lemma ExtNameLower(path: string)
    ensures ExtName(LowerAscii(path)) == LowerAscii(ExtName(path))
  {
    BaseNameLower(path);
    SegmentExtLower(BaseName(path));
  }

  /** Names that differ only in the letter case of ASCII letters get the
      same file type. */
  lemma NameCaseInsensitive(mimetype: string, a: string, b: string)
    requires LowerAscii(a) == LowerAscii(b)
    ensures GetFileType(mimetype, a) == GetFileType(mimetype, b)
  {
    ExtNameLower(a);
    ExtNameLower(b);
  }

  /** A name ending in an Excel extension, in any letter case, is an Excel
      file unless its MIME type says it is an image. */
  lemma ExcelExtensionAnyCase(mimetype: string, stem: string, ext: string)
    requires |stem| > 0 && '/' !in stem + ext && !Contains(mimetype, ImageMarker)
    requires LowerAscii(ext) == ".xlsx" || LowerAscii(ext) == ".xls"
    ensures GetFileType(mimetype, stem + ext) == "excel"
  {
    LowerAsciiChars(ext);
    assert ext[0] == '.';
    assert forall i :: 1 <= i < |ext| ==> LowerAscii(ext)[i] != '.';
    assert '.' !in ext[1..] by {
      forall i | 1 <= i < |ext| ensures ext[i] != '.' {
        assert LowerAscii(ext)[i] != '.';
      }
    }
    ExtNameOfName(stem, ext);
  }

  /** A file part of a multipart upload. */
  datatype UploadedFile = UploadedFile(name: string, mimetype: string, size: nat)

  /** `req.files`: absent or empty, or holding a `files` field that is one
      file, several files, or missing (another field name was used). */
  datatype UploadForm = NoFiles | FilesField(files: Option<FilesValue>)
  datatype FilesValue = One(file: UploadedFile) | Many(list: seq<UploadedFile>)

  /** `Array.isArray(req.files.files) ? req.files.files : [req.files.files]`. */
  function FileList(v: FilesValue): (r: seq<UploadedFile>)
    ensures v.One? ==> r == [v.file]
  {
    match v
    case One(f) => [f]
    case Many(list) => list
  }

  /** The row stored for an uploaded file (the columns this model tracks). */
  datatype FileRow = FileRow(filename: string, originalName: string, fileType: string, size: nat,
                             mimeType: string, isShared: bool)
  datatype UploadEntry = UploadEntry(id: int, filename: string, originalName: string, fileType: string, size: nat)
  datatype UploadResult = UploadResult(entries: seq<UploadEntry>, rows: seq<FileRow>, message: string)

  /** The stored name of an upload: a fresh id followed by the original extension. */
  function StoredName(file: UploadedFile, freshId: string): string
  {
    freshId + ExtName(file.name)
  }

  function EntryFor(file: UploadedFile, freshId: string, insertId: int): UploadEntry
  {
    UploadEntry(insertId, StoredName(file, freshId), file.name, GetFileType(file.mimetype, file.name), file.size)
  }

  /** `isShared === 'true'`. */
  function RowFor(file: UploadedFile, freshId: string, isShared: JsValue): FileRow
  {
    FileRow(StoredName(file, freshId), file.name, GetFileType(file.mimetype, file.name), file.size, file.mimetype,
            isShared == Str("true"))
  }

  /** POST /upload: one stored row and one response entry per file, in order;
      the stored name is a fresh id followed by the original extension, and
      `is_shared` is true exactly for the form value 'true'. `freshIds` and
      `insertIds` are what `uuidv4` and the database hand out, in call order. */
  method Upload(form: UploadForm, isShared: JsValue, freshIds: seq<string>, insertIds: seq<int>)
    returns (r: Result<UploadResult>)
    requires form.FilesField? && form.files.Some? ==>
               |freshIds| >= |FileList(form.files.value)| && |insertIds| >= |FileList(form.files.value)|
    ensures form.NoFiles? ==> r.Fail? && r.status == 400
    ensures form.FilesField? && form.files.None? ==> r.Fail? && r.status == 500
    ensures r.Ok? <==> form.FilesField? && form.files.Some?
    ensures r.Ok? ==>
              var files := FileList(form.files.value);
              && |r.value.entries| == |files| && |r.value.rows| == |files|
              && r.value.message == DecimalString(|files|) + " file(s) uploaded successfully"
              && (forall k :: 0 <= k < |files| ==> r.value.entries[k] == EntryFor(files[k], freshIds[k], insertIds[k]))
              && (forall k :: 0 <= k < |files| ==> r.value.rows[k] == RowFor(files[k], freshIds[k], isShared))
  {
    if form.NoFiles? {
      return Fail(400, "No files were uploaded");
    }
    if form.files.None? {
      // `file.name` of undefined throws
      return Fail(500, "Internal server error");
    }
    var files := FileList(form.files.value);
    var entries, rows := StoreEach(|files|,
      (k: nat) requires k < |files| => EntryFor(files[k], freshIds[k], insertIds[k]),
      (k: nat) requires k < |files| => RowFor(files[k], freshIds[k], isShared));
    r := Ok(UploadResult(entries, rows, DecimalString(|entries|) + " file(s) uploaded successfully"));
  }

  /** The upload loop over the file indices: iteration `k` inserts row
      `rowOf(k)` and pushes response entry `entryOf(k)`. */
  method StoreEach(n: nat, entryOf: nat --> UploadEntry, rowOf: nat --> FileRow)
    returns (entries: seq<UploadEntry>, rows: seq<FileRow>)
    requires forall k: nat :: k < n ==> entryOf.requires(k) && rowOf.requires(k)
    ensures |entries| == n && |rows| == n
    ensures forall k :: 0 <= k < n ==> entries[k] == entryOf(k) && rows[k] == rowOf(k)
  {
    entries := [];
    rows := [];
    var i := 0;
    while i < n
      invariant 0 <= i <= n
      invariant |entries| == i && |rows| == i
      invariant forall k :: 0 <= k < i ==> entries[k] == entryOf(k) && rows[k] == rowOf(k)
    {
      rows := rows + [rowOf(i)];
      entries := entries + [entryOf(i)];
      i := i + 1;
    }
  }

  /** Every stored row is flagged shared exactly when the form said 'true',
      and names the same stored file and type as its response entry. */
  lemma RowMatchesEntry(file: UploadedFile, freshId: string, insertId: int, isShared: JsValue)
    ensures RowFor(file, freshId, isShared).isShared <==> isShared == Str("true")
    ensures RowFor(file, freshId, isShared).filename == EntryFor(file, freshId, insertId).filename
    ensures RowFor(file, freshId, isShared).fileType == EntryFor(file, freshId, insertId).fileType
    ensures EntryFor(file, freshId, insertId).fileType in FileTypes
  {
  }
}

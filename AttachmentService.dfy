/** The attachment service (server/services/attachment_service.go) over the attachment
    table (server/repositories/attachment_repository.go). The uploaded file is its name,
    size and Content-Type header; the wall clock is a parameter. */
module AttachmentService {
  import opened Wrappers
  import opened Seqs
  import Text
  import AttachmentModel

  const UnsupportedType := "不支持的文件类型"
  const LookupFailed := "获取附件信息失败: record not found"
  const Missing := "附件不存在: record not found"
  const NoDeleteRight := "没有权限删除此附件"
  const NoEditRight := "没有权限修改此附件"
  const StatsWindow := 1000

  /** The part of the multipart file header the service reads. */
  datatype UploadFile = UploadFile(filename: string, size: int, contentType: string)

  datatype UploadRequest = UploadRequest(
    file: UploadFile, entityType: string, entityId: nat, userId: nat, description: string,
    tags: seq<string>, isPublic: bool, sortOrder: int)

  /** `UpdateAttachmentDTO`; `tags` is None for a JSON null or an absent field. */
  datatype UpdateRequest = UpdateRequest(
    description: Option<string>, tags: Option<seq<string>>, isPublic: Option<bool>, sortOrder: Option<int>)

  /** A row of `attachments`; `deleted` is GORM's soft-delete mark. */
  datatype AttachmentRow = AttachmentRow(
    id: nat, originalName: string, fileName: string, filePath: string, fileSize: int,
    mimeType: string, extension: string, attachmentType: string, entityType: string,
    entityId: nat, userId: nat, storageProvider: string, publicURL: string, privateURL: string,
    thumbnail: Option<string>, description: string, tags: seq<string>, isActive: bool,
    isPublic: bool, sortOrder: int, deleted: bool, createdAt: int, updatedAt: int)

  datatype AttachmentDTO = AttachmentDTO(
    id: nat, originalName: string, fileName: string, fileSize: int, mimeType: string,
    attachmentType: string, entityType: string, entityId: nat, publicURL: string,
    thumbnail: string, description: string, tags: seq<string>, sortOrder: int,
    createdAt: int, updatedAt: int)

  datatype StorageUsage = StorageUsage(images: int, videos: int, files: int)

  datatype AttachmentStats = AttachmentStats(
    totalAttachments: nat, totalSize: int, byType: map<string, nat>, byEntity: map<string, nat>,
    storageUsage: StorageUsage)

  // ---------------------------------------------------------------- file names

  /** `filepath.Ext`: from the last '.' of the last path element to the end; empty when
      that element has no '.'. */
  function Ext(path: string): string {
    if path == [] || path[|path| - 1] == '/' then ""
    else if path[|path| - 1] == '.' then "."
    else
      var e := Ext(path[..|path| - 1]);
      if e == "" then "" else e + [path[|path| - 1]]
  }

  /** The extension is a suffix: empty, or a '.' followed by neither '.' nor '/'. */
  lemma {:induction false} ExtShape(path: string)
    ensures |Ext(path)| <= |path| && Ext(path) == path[|path| - |Ext(path)|..]
    ensures Ext(path) != "" ==> Ext(path)[0] == '.' && Plain(Ext(path)[1..])
  {
    if path != [] && path[|path| - 1] != '/' && path[|path| - 1] != '.' {
      var front := path[..|path| - 1];
      ExtShape(front);
      var e := Ext(front);
      if e != "" {
        assert Ext(path) == e + [path[|path| - 1]];
        assert front[|front| - |e|..] + [path[|path| - 1]] == path[|path| - |e| - 1..];
        assert (e + [path[|path| - 1]])[1..] == e[1..] + [path[|path| - 1]];
      }
    }
  }

  /** No '.' and no '/'. */
  predicate Plain(s: string) {
    forall i :: 0 <= i < |s| ==> s[i] != '.' && s[i] != '/'
  }

  /** Appending characters that are neither '.' nor '/' extends a found extension and
      leaves a missing one missing. */
  lemma {:induction false} ExtAppendPlain(a: string, b: string)
    requires Plain(b)
    ensures Ext(a + b) == if Ext(a) == "" then "" else Ext(a) + b
    decreases |b|
  {
    if b != [] {
      var front, c := b[..|b| - 1], b[|b| - 1];
      PlainPrefix(b);
      ExtAppendPlain(a, front);
      var p := a + front;
      ExtSnoc(p, c);
      SnocAfter(a, front, c, b);
      SnocAfter(Ext(a), front, c, b);
    } else {
      assert a + b == a;
    }
  }

  lemma SnocAfter(x: string, front: string, c: char, b: string)
    requires b == front + [c]
    ensures (x + front) + [c] == x + b
  {
  }

  lemma PlainPrefix(b: string)
    requires b != [] && Plain(b)
    ensures Plain(b[..|b| - 1]) && b[|b| - 1] != '.' && b[|b| - 1] != '/'
  {
    var front := b[..|b| - 1];
    forall i | 0 <= i < |front| ensures front[i] != '.' && front[i] != '/' {
      assert front[i] == b[i];
    }
  }

  lemma ExtSnoc(p: string, c: char)
    requires c != '.' && c != '/'
    ensures Ext(p + [c]) == if Ext(p) == "" then "" else Ext(p) + [c]
  {
    var q := p + [c];
    assert q[..|q| - 1] == p && q[|q| - 1] == c;
  }

  /** An extension put after any prefix is found again. */
  lemma ExtOfSuffix(prefix: string, e: string)
    requires e != "" && e[0] == '.' && Plain(e[1..])
    ensures Ext(prefix + e) == e
  {
    var dot, tail := prefix + ".", e[1..];
    ExtOfDot(prefix);
    ExtAppendPlain(dot, tail);
    DotSplit(prefix, e, dot, tail);
  }

  lemma DotSplit(prefix: string, e: string, dot: string, tail: string)
    requires e != "" && e[0] == '.' && tail == e[1..] && dot == prefix + "."
    ensures e == "." + tail && dot + tail == prefix + e
  {
    assert e == [e[0]] + e[1..];
  }

  lemma ExtOfDot(prefix: string)
    ensures Ext(prefix + ".") == "."
  {
    var dot := prefix + ".";
    assert dot[|dot| - 1] == '.';
  }

  /** `strings.TrimSuffix(name, ext)` for the name's own extension. */
  function BaseName(name: string): (b: string)
    ensures b + Ext(name) == name
  {
    ExtShape(name);
    name[..|name| - |Ext(name)|]
  }

  lemma IntToStringPlain(n: int)
    ensures Plain(Text.IntToString(n))
  {
    var s := Text.IntToString(n);
    forall i | 0 <= i < |s| ensures s[i] != '.' && s[i] != '/' {
      if n < 0 {
        assert s == "-" + Text.NatToString(-n);
        if i > 0 {
          assert s[i] == Text.NatToString(-n)[i - 1];
        }
      }
    }
  }

  /** `generateFileName`: base name, '_', the Unix time, then the extension. */
  function GenerateFileName(originalName: string, unix: int): (r: string)
    ensures Ext(r) == Ext(originalName)
    ensures r == BaseName(originalName) + "_" + Text.IntToString(unix) + Ext(originalName)
  {
    StampKeepsExt(originalName, unix);
    BaseName(originalName) + "_" + Text.IntToString(unix) + Ext(originalName)
  }

  /** The time stamp put before the extension leaves it the name's extension. */
  lemma StampKeepsExt(originalName: string, unix: int)
    ensures Ext(BaseName(originalName) + "_" + Text.IntToString(unix) + Ext(originalName)) == Ext(originalName)
  {
    var ext := Ext(originalName);
    var stamp := "_" + Text.IntToString(unix);
    IntToStringPlain(unix);
    assert Plain(stamp) by {
      forall i | 0 <= i < |stamp| ensures stamp[i] != '.' && stamp[i] != '/' {
        if i > 0 {
          assert stamp[i] == Text.IntToString(unix)[i - 1];
        }
      }
    }
    assert BaseName(originalName) + "_" + Text.IntToString(unix) + ext == BaseName(originalName) + stamp + ext;
    if ext == "" {
      assert BaseName(originalName) == originalName;
      assert BaseName(originalName) + stamp + ext == originalName + stamp;
      ExtAppendPlain(originalName, stamp);
    } else {
      ExtShape(originalName);
      ExtOfSuffix(BaseName(originalName) + stamp, ext);
    }
  }

  /** A different time gives a different name. */
  lemma FileNamesDiffer(name: string, t1: int, t2: int)
    requires t1 != t2
    ensures GenerateFileName(name, t1) != GenerateFileName(name, t2)
  {
    var b, e := BaseName(name), Ext(name);
    var s1, s2 := Text.IntToString(t1), Text.IntToString(t2);
    if GenerateFileName(name, t1) == GenerateFileName(name, t2) {
      assert b + "_" + s1 + e == b + "_" + s2 + e;
      assert |s1| == |s2|;
      assert s1 == (b + "_" + s1 + e)[|b| + 1..|b| + 1 + |s1|];
      assert s2 == (b + "_" + s2 + e)[|b| + 1..|b| + 1 + |s2|];
      IntToStringInjective(t1, t2);
    }
  }

  lemma IntToStringInjective(m: int, n: int)
    requires Text.IntToString(m) == Text.IntToString(n)
    ensures m == n
  {
    var s := Text.IntToString(m);
    if m < 0 && n < 0 {
      assert s[1..] == Text.NatToString(-m) && s[1..] == Text.NatToString(-n);
      Text.NatToStringInjective(-m, -n);
    } else if m >= 0 && n >= 0 {
      Text.NatToStringInjective(m, n);
    }
  }

  /** `generateFilePath`. */
  function FilePath(entityType: string, fileName: string): string {
    "uploads/" + entityType + "/" + fileName
  }

  const AllowedTypes: map<string, bool> :=
    map["image/jpeg" := true, "image/jpg" := true, "image/png" := true, "image/gif" := true,
        "video/mp4" := true, "video/avi" := true, "video/mov" := true]

  /** `isValidFileType`: a lookup in the allowed table, false when absent. */
  function IsValidFileType(file: UploadFile): (b: bool)
    ensures b <==> file.contentType in {"image/jpeg", "image/jpg", "image/png", "image/gif",
                                        "video/mp4", "video/avi", "video/mov"}
  {
    if file.contentType in AllowedTypes then AllowedTypes[file.contentType] else false
  }

  /** `determineAttachmentType`. */
  function DetermineAttachmentType(mimeType: string): (t: string)
    ensures t in {"image", "video", "file"}
    ensures t == "image" <==> Text.StartsWith(mimeType, "image/")
    ensures t == "video" <==> !Text.StartsWith(mimeType, "image/") && Text.StartsWith(mimeType, "video/")
  {
    if Text.StartsWith(mimeType, "image/") then "image"
    else if Text.StartsWith(mimeType, "video/") then "video"
    else "file"
  }

  /** Every accepted upload is an image or a video. */
  lemma AcceptedIsMedia(file: UploadFile)
    requires IsValidFileType(file)
    ensures DetermineAttachmentType(file.contentType) in {"image", "video"}
  {
  }

  // ---------------------------------------------------------------- the table

  predicate Live(rows: seq<AttachmentRow>, id: nat) {
    1 <= id <= |rows| && !rows[id - 1].deleted
  }

  /** The table: row `i` has id `i + 1`; a deleted row keeps its place. */
  class AttachmentRepository {
    var rows: seq<AttachmentRow>

    ghost predicate Valid()
      reads this
    {
      forall i :: 0 <= i < |rows| ==> rows[i].id == i + 1
    }

    constructor ()
      ensures Valid() && rows == []
    {
      rows := [];
    }

    /** `Create`: the next id, the times, and `is_active`'s column default true in place
        of the zero value. */
    method Create(row: AttachmentRow, now: int) returns (id: nat)
      requires Valid()
      modifies this
      ensures Valid() && id == |old(rows)| + 1
      ensures rows == old(rows) + [row.(id := id, isActive := true, deleted := false, createdAt := now, updatedAt := now)]
    {
      id := |rows| + 1;
      rows := rows + [row.(id := id, isActive := true, deleted := false, createdAt := now, updatedAt := now)];
    }

    /** `GetByID` (`First`), which skips soft-deleted rows. */
    function GetByID(id: nat): (r: Option<AttachmentRow>)
      reads this
      requires Valid()
      ensures r.Some? <==> Live(rows, id)
      ensures r.Some? ==> r.value == rows[id - 1] && r.value.id == id
    {
      if Live(rows, id) then Some(rows[id - 1]) else None
    }

    /** `Update` (`Save`) of a stored row with a new update time. */
    method Update(row: AttachmentRow, now: int)
      requires Valid() && 1 <= row.id <= |rows|
      modifies this
      ensures Valid()
      ensures rows == old(rows)[row.id - 1 := row.(updatedAt := now)]
    {
      rows := rows[row.id - 1 := row.(updatedAt := now)];
    }

    /** `Delete`: a soft delete of a live row. */
    method Delete(id: nat)
      requires Valid()
      modifies this
      ensures Valid()
      ensures Live(old(rows), id) ==> rows == old(rows)[id - 1 := old(rows)[id - 1].(deleted := true)]
      ensures !Live(old(rows), id) ==> rows == old(rows)
    {
      if Live(rows, id) {
        rows := rows[id - 1 := rows[id - 1].(deleted := true)];
      }
    }
  }

  predicate Visible(row: AttachmentRow) { !row.deleted && row.isActive }

  function OfEntity(entityType: string, entityId: nat): AttachmentRow -> bool {
    (row: AttachmentRow) => Visible(row) && row.entityType == entityType && row.entityId == entityId
  }

  function OfUser(userId: nat): AttachmentRow -> bool {
    (row: AttachmentRow) => Visible(row) && row.userId == userId
  }

  predicate SortedBefore(a: AttachmentRow, b: AttachmentRow) {
    a.sortOrder < b.sortOrder || (a.sortOrder == b.sortOrder && a.createdAt <= b.createdAt)
  }

  function BySortOrder(): (AttachmentRow, AttachmentRow) -> bool {
    (a: AttachmentRow, b: AttachmentRow) => SortedBefore(a, b)
  }

  function NewestFirst(): (AttachmentRow, AttachmentRow) -> bool {
    (a: AttachmentRow, b: AttachmentRow) => a.createdAt >= b.createdAt
  }

  lemma OrdersArePreorders()
    ensures IsTotalPreorder(BySortOrder()) && IsTotalPreorder(NewestFirst())
  {
  }

  /** `GetByEntityID`: the entity's active rows by sort order, then creation time. */
  function ByEntity(rows: seq<AttachmentRow>, entityType: string, entityId: nat): seq<AttachmentRow> {
    SortWith(BySortOrder(), Filter(OfEntity(entityType, entityId), rows))
  }

  /** `GetByUserID`: the user's active rows newest first, at most `limit` when positive. */
  function ByUser(rows: seq<AttachmentRow>, userId: nat, limit: int): (r: seq<AttachmentRow>)
    ensures limit > 0 ==> |r| <= limit
  {
    Limited(SortWith(NewestFirst(), Filter(OfUser(userId), rows)), limit)
  }

  /** A row is listed for an entity exactly when it is live, active and attached to it;
      the list is in sort order. */
  lemma ByEntityRows(rows: seq<AttachmentRow>, entityType: string, entityId: nat)
    ensures forall x :: x in ByEntity(rows, entityType, entityId) <==>
                        x in rows && Visible(x) && x.entityType == entityType && x.entityId == entityId
    ensures SortedWith(BySortOrder(), ByEntity(rows, entityType, entityId))
  {
    var mine := Filter(OfEntity(entityType, entityId), rows);
    assert forall x :: x in ByEntity(rows, entityType, entityId) <==> x in multiset(mine);
    SortWithSorted(BySortOrder(), mine);
  }

  /** The user's list holds only live, active rows of that user, newest first; without a
      limit it holds every one of them, and with one it holds as many as the limit allows,
      none of the user's rows left out being newer than one listed. */
  lemma ByUserRows(rows: seq<AttachmentRow>, userId: nat, limit: int)
    ensures var mine, r := Filter(OfUser(userId), rows), ByUser(rows, userId, limit);
            && (forall x :: x in r ==> x in rows && Visible(x) && x.userId == userId)
            && (limit <= 0 ==> forall x :: x in r <==> x in rows && Visible(x) && x.userId == userId)
            && (limit <= 0 ==> multiset(r) == multiset(mine))
            && SortedWith(NewestFirst(), r)
            && (forall i, j :: 0 <= i < j < |r| ==> r[i].createdAt >= r[j].createdAt)
            && (limit > 0 ==> |r| == if |mine| <= limit then |mine| else limit)
            && (forall x :: x in rows && Visible(x) && x.userId == userId ==>
                  x in r || forall y :: y in r ==> y.createdAt >= x.createdAt)
  {
    var r := ByUser(rows, userId, limit);
    OrdersArePreorders();
    TopRows(NewestFirst(), OfUser(userId), rows, limit);
    forall i, j | 0 <= i < j < |r| ensures r[i].createdAt >= r[j].createdAt {
      assert NewestFirst()(r[i], r[j]);
    }
  }

  // ---------------------------------------------------------------- conversions

  function ModelOf(row: AttachmentRow): AttachmentModel.Attachment {
    AttachmentModel.Attachment(row.attachmentType, row.filePath, row.publicURL, row.privateURL)
  }

  /** `convertToAttachmentResponse`: the URL is the model's best URL, a missing thumbnail
      is "". */
  function ToDTO(row: AttachmentRow): (d: AttachmentDTO)
    ensures d.publicURL == AttachmentModel.GetURL(ModelOf(row))
    ensures row.publicURL != "" ==> d.publicURL == row.publicURL
    ensures d.thumbnail == row.thumbnail.GetOr("")
    ensures d.id == row.id && d.fileName == row.fileName && d.tags == row.tags && d.sortOrder == row.sortOrder
  {
    AttachmentDTO(row.id, row.originalName, row.fileName, row.fileSize, row.mimeType, row.attachmentType,
                  row.entityType, row.entityId, AttachmentModel.GetURL(ModelOf(row)), row.thumbnail.GetOr(""),
                  row.description, row.tags, row.sortOrder, row.createdAt, row.updatedAt)
  }

  // ---------------------------------------------------------------- operations

  /** The row an upload builds; the file-name time and the creation time are the same
      clock value. */
  function UploadedRow(req: UploadRequest, now: int): AttachmentRow {
    var fileName := GenerateFileName(req.file.filename, now);
    AttachmentRow(0, req.file.filename, fileName, FilePath(req.entityType, fileName), req.file.size,
                  req.file.contentType, Text.Lower(Ext(req.file.filename)),
                  DetermineAttachmentType(req.file.contentType), req.entityType, req.entityId, req.userId,
                  "local", "/uploads/" + req.entityType + "/" + fileName, "", None, req.description,
                  req.tags, true, req.isPublic, req.sortOrder, false, now, now)
  }

  /** The public URL of an upload is its path behind a '/'. */
  lemma UrlIsRootedPath(entityType: string, fileName: string)
    ensures "/uploads/" + entityType + "/" + fileName == "/" + FilePath(entityType, fileName)
  {
    assert "/uploads/" == "/" + "uploads/";
  }

  /** What an upload stores: the public URL is "/uploads/<entity type>/<file name>", the
      path the same without the leading '/', the provider "local", the extension the
      lower-cased one of the original name, which the stored name keeps. */
  lemma UploadedRowFields(req: UploadRequest, now: int)
    ensures var row := UploadedRow(req, now);
            && row.publicURL == "/" + row.filePath
            && row.filePath == "uploads/" + req.entityType + "/" + row.fileName
            && row.storageProvider == "local"
            && Ext(row.fileName) == Ext(req.file.filename)
            && row.extension == Text.Lower(Ext(row.fileName))
            && row.userId == req.userId && row.originalName == req.file.filename
  {
    var fileName := GenerateFileName(req.file.filename, now);
    UrlIsRootedPath(req.entityType, fileName);
  }

  /** `UploadAttachment`: a disallowed Content-Type is refused before any write. */
  method UploadAttachment(repo: AttachmentRepository, req: UploadRequest, now: int) returns (r: Result<AttachmentDTO, string>)
    requires repo.Valid()
    modifies repo
    ensures repo.Valid()
    ensures !IsValidFileType(req.file) ==> r == Err(UnsupportedType) && repo.rows == old(repo.rows)
    ensures IsValidFileType(req.file) ==>
              var row := UploadedRow(req, now).(id := |old(repo.rows)| + 1);
              && repo.rows == old(repo.rows) + [row]
              && r == Ok(ToDTO(row)) && r.value.publicURL == row.publicURL
  {
    if !IsValidFileType(req.file) {
      return Err(UnsupportedType);
    }
    var row := UploadedRow(req, now);
    var id := repo.Create(row, now);
    r := Ok(ToDTO(row.(id := id)));
  }

  /** The conversion loop of `GetAttachmentsByEntity`. */
  method ConvertAll(rows: seq<AttachmentRow>) returns (r: seq<AttachmentDTO>)
    ensures |r| == |rows|
    ensures forall i :: 0 <= i < |rows| ==> r[i] == ToDTO(rows[i])
  {
    r := [];
    var i := 0;
    while i < |rows|
      invariant 0 <= i <= |rows| && |r| == i
      invariant forall j :: 0 <= j < i ==> r[j] == ToDTO(rows[j])
    {
      r := r + [ToDTO(rows[i])];
      i := i + 1;
    }
  }

  /** `GetAttachmentsByEntity`; no ownership check. */
  method GetAttachmentsByEntity(repo: AttachmentRepository, entityType: string, entityId: nat) returns (r: seq<AttachmentDTO>)
    ensures var rows := ByEntity(repo.rows, entityType, entityId);
            |r| == |rows| && forall i :: 0 <= i < |rows| ==> r[i] == ToDTO(rows[i])
  {
    r := ConvertAll(ByEntity(repo.rows, entityType, entityId));
  }

  /** `GetAttachment`: any live attachment, whoever asks. */
  function GetAttachment(repo: AttachmentRepository, id: nat): (r: Result<AttachmentDTO, string>)
    reads repo
    ensures r.Ok? <==> Live(repo.rows, id)
    ensures r.Ok? ==> r.value == ToDTO(repo.rows[id - 1])
    ensures r.Err? ==> r.error == LookupFailed
  {
    if Live(repo.rows, id) then Ok(ToDTO(repo.rows[id - 1])) else Err(LookupFailed)
  }

  /** The lookup and uploader check shared by delete and the updates. */
  function Access(rows: seq<AttachmentRow>, userId: nat, id: nat, denied: string): (r: Result<AttachmentRow, string>)
    ensures r.Ok? <==> Live(rows, id) && rows[id - 1].userId == userId
    ensures r.Ok? ==> r.value == rows[id - 1]
    ensures !Live(rows, id) ==> r == Err(Missing)
    ensures Live(rows, id) && rows[id - 1].userId != userId ==> r == Err(denied)
  {
    if !Live(rows, id) then Err(Missing)
    else if rows[id - 1].userId != userId then Err(denied)
    else Ok(rows[id - 1])
  }

  /** `DeleteAttachment`: only the uploader may soft-delete. */
  method DeleteAttachment(repo: AttachmentRepository, id: nat, userId: nat) returns (err: Option<string>)
    requires repo.Valid()
    modifies repo
    ensures repo.Valid()
    ensures var acc := Access(old(repo.rows), userId, id, NoDeleteRight);
            && (err.None? <==> acc.Ok?)
            && (acc.Err? ==> err == Some(acc.error) && repo.rows == old(repo.rows))
            && (acc.Ok? ==> repo.rows == old(repo.rows)[id - 1 := old(repo.rows)[id - 1].(deleted := true)])
  {
    var acc := Access(repo.rows, userId, id, NoDeleteRight);
    if acc.Err? {
      return Some(acc.error);
    }
    repo.Delete(id);
    err := None;
  }

  /** `UpdateAttachmentOrder`: only the uploader may change the sort order. */
  method UpdateAttachmentOrder(repo: AttachmentRepository, id: nat, sortOrder: int, userId: nat, now: int)
    returns (err: Option<string>)
    requires repo.Valid()
    modifies repo
    ensures repo.Valid()
    ensures var acc := Access(old(repo.rows), userId, id, NoEditRight);
            && (err.None? <==> acc.Ok?)
            && (acc.Err? ==> err == Some(acc.error) && repo.rows == old(repo.rows))
            && (acc.Ok? ==> repo.rows == old(repo.rows)[id - 1 := acc.value.(sortOrder := sortOrder, updatedAt := now)])
  {
    var acc := Access(repo.rows, userId, id, NoEditRight);
    if acc.Err? {
      return Some(acc.error);
    }
    var attachment := acc.value.(sortOrder := sortOrder);
    repo.Update(attachment, now);
    err := None;
  }

  /** The fields `UpdateAttachment` writes: each given one takes the request's value. */
  function Patched(row: AttachmentRow, req: UpdateRequest): AttachmentRow {
    row.(description := req.description.GetOr(row.description),
         tags := req.tags.GetOr(row.tags),
         isPublic := req.isPublic.GetOr(row.isPublic),
         sortOrder := req.sortOrder.GetOr(row.sortOrder))
  }

  /** The patch changes exactly the given fields; a given tag list replaces the old one
      whole, even when empty; patching twice is patching once. */
  lemma PatchedFields(row: AttachmentRow, req: UpdateRequest)
    ensures var p := Patched(row, req);
            && (req.tags.Some? ==> p.tags == req.tags.value) && (req.tags.None? ==> p.tags == row.tags)
            && (req.description.Some? ==> p.description == req.description.value)
            && (req.description.None? ==> p.description == row.description)
            && (req.sortOrder.Some? ==> p.sortOrder == req.sortOrder.value)
            && (req.isPublic.Some? ==> p.isPublic == req.isPublic.value)
            && p.id == row.id && p.userId == row.userId && p.fileName == row.fileName
            && p.publicURL == row.publicURL && p.entityType == row.entityType && p.entityId == row.entityId
    ensures Patched(Patched(row, req), req) == Patched(row, req)
    ensures Patched(row, UpdateRequest(None, None, None, None)) == row
  {
  }

  /** `UpdateAttachment`: only the uploader; the given fields are set one by one and the
      row saved. */
  method UpdateAttachment(repo: AttachmentRepository, id: nat, userId: nat, req: UpdateRequest, now: int)
    returns (r: Result<AttachmentDTO, string>)
    requires repo.Valid()
    modifies repo
    ensures repo.Valid()
    ensures var acc := Access(old(repo.rows), userId, id, NoEditRight);
            && (acc.Err? ==> r == Err(acc.error) && repo.rows == old(repo.rows))
            && (acc.Ok? ==>
                  var row := Patched(acc.value, req).(updatedAt := now);
                  && repo.rows == old(repo.rows)[id - 1 := row]
                  && r == Ok(ToDTO(row)))
  {
    var acc := Access(repo.rows, userId, id, NoEditRight);
    if acc.Err? {
      return Err(acc.error);
    }
    var attachment := acc.value;
    if req.description.Some? {
      attachment := attachment.(description := req.description.value);
    }
    if req.tags.Some? {
      attachment := attachment.(tags := req.tags.value);
    }
    if req.isPublic.Some? {
      attachment := attachment.(isPublic := req.isPublic.value);
    }
    if req.sortOrder.Some? {
      attachment := attachment.(sortOrder := req.sortOrder.value);
    }
    assert attachment == Patched(acc.value, req);
    repo.Update(attachment, now);
    r := Ok(ToDTO(attachment.(updatedAt := now)));
  }

  // ---------------------------------------------------------------- statistics

  /** The two groupings of the statistics. */
  datatype Facet = Kind | Entity

  function Key(f: Facet, row: AttachmentRow): string {
    match f
    case Kind => row.attachmentType
    case Entity => row.entityType
  }

  /** The bytes of a list. */
  function TotalSize(s: seq<AttachmentRow>): int {
    if s == [] then 0 else TotalSize(s[..|s| - 1]) + s[|s| - 1].fileSize
  }

  datatype Bucket = Images | Videos | Files

  function BucketOf(attachmentType: string): Bucket {
    if attachmentType == "image" then Images else if attachmentType == "video" then Videos else Files
  }

  /** The bytes of the rows that fall in one storage bucket. */
  function BucketSize(b: Bucket, s: seq<AttachmentRow>): int {
    if s == [] then 0
    else BucketSize(b, s[..|s| - 1]) + (if BucketOf(s[|s| - 1].attachmentType) == b then s[|s| - 1].fileSize else 0)
  }

  /** The rows with a given key. */
  function CountKey(f: Facet, k: string, s: seq<AttachmentRow>): nat {
    if s == [] then 0 else CountKey(f, k, s[..|s| - 1]) + (if Key(f, s[|s| - 1]) == k then 1 else 0)
  }

  /** The keys that occur. */
  function KeysOf(f: Facet, s: seq<AttachmentRow>): set<string> {
    if s == [] then {} else KeysOf(f, s[..|s| - 1]) + {Key(f, s[|s| - 1])}
  }

  /** `map[k]++` on a Go map, where a missing key counts from zero. */
  function Bump(m: map<string, nat>, k: string): map<string, nat> {
    m[k := (if k in m then m[k] else 0) + 1]
  }

  /** The counting map of a facet: its keys are the keys that occur, each with its number
      of rows. */
  ghost predicate Tallies(f: Facet, s: seq<AttachmentRow>, m: map<string, nat>) {
    m.Keys == KeysOf(f, s) && forall k :: k in m ==> m[k] == CountKey(f, k, s)
  }

  lemma TallyStep(f: Facet, s: seq<AttachmentRow>, m: map<string, nat>, x: AttachmentRow)
    requires Tallies(f, s, m)
    ensures Tallies(f, s + [x], Bump(m, Key(f, x)))
  {
    var key, t := Key(f, x), s + [x];
    var m2 := Bump(m, key);
    SnocFacts(f, s, x);
    assert m2.Keys == m.Keys + {key};
    forall k | k in m2 ensures m2[k] == CountKey(f, k, t) {
      if k !in m {
        CountKeyAbsent(f, k, s);
      }
    }
  }

  lemma SnocFacts(f: Facet, s: seq<AttachmentRow>, x: AttachmentRow)
    ensures KeysOf(f, s + [x]) == KeysOf(f, s) + {Key(f, x)}
    ensures forall k :: CountKey(f, k, s + [x]) == CountKey(f, k, s) + (if Key(f, x) == k then 1 else 0)
  {
    var t := s + [x];
    assert t[..|t| - 1] == s;
  }

  lemma {:induction false} CountKeyAbsent(f: Facet, k: string, s: seq<AttachmentRow>)
    requires k !in KeysOf(f, s)
    ensures CountKey(f, k, s) == 0
  {
    if s != [] {
      CountKeyAbsent(f, k, s[..|s| - 1]);
    }
  }

  /** The loop's progress over the first rows. */
  ghost predicate StatsSoFar(s: seq<AttachmentRow>, st: AttachmentStats) {
    && st.totalSize == TotalSize(s)
    && Tallies(Kind, s, st.byType) && Tallies(Entity, s, st.byEntity)
    && st.storageUsage == StorageUsage(BucketSize(Images, s), BucketSize(Videos, s), BucketSize(Files, s))
  }

  /** One more attachment adds its size to the total and to its bucket. */
  lemma SizeStep(list: seq<AttachmentRow>, i: nat)
    requires i < |list|
    ensures TotalSize(list[..i + 1]) == TotalSize(list[..i]) + list[i].fileSize
    ensures forall b: Bucket :: BucketSize(b, list[..i + 1])
                                == BucketSize(b, list[..i]) + (if BucketOf(list[i].attachmentType) == b then list[i].fileSize else 0)
  {
    assert list[..i + 1][..i] == list[..i];
  }

  lemma TallyStepAt(f: Facet, list: seq<AttachmentRow>, i: nat, m: map<string, nat>)
    requires i < |list| && Tallies(f, list[..i], m)
    ensures Tallies(f, list[..i + 1], Bump(m, Key(f, list[i])))
  {
    assert list[..i + 1] == list[..i] + [list[i]];
    TallyStep(f, list[..i], m, list[i]);
  }

  /** `GetAttachmentStats`: over the newest 1000 attachments of the user. */
  method GetAttachmentStats(repo: AttachmentRepository, userId: nat) returns (stats: AttachmentStats)
    ensures var list := ByUser(repo.rows, userId, StatsWindow);
            && stats.totalAttachments == |list| <= StatsWindow
            && StatsSoFar(list, stats)
  {
    var list := ByUser(repo.rows, userId, StatsWindow);
    stats := Summarize(list);
  }

  /** The loop of `GetAttachmentStats` over the fetched rows. */
  method Summarize(list: seq<AttachmentRow>) returns (stats: AttachmentStats)
    ensures stats.totalAttachments == |list| && StatsSoFar(list, stats)
  {
    var totalSize, byType, byEntity := 0, map[], map[];
    var images, videos, files := 0, 0, 0;
    var i := 0;
    while i < |list|
      invariant 0 <= i <= |list|
      invariant totalSize == TotalSize(list[..i])
      invariant Tallies(Kind, list[..i], byType) && Tallies(Entity, list[..i], byEntity)
      invariant images == BucketSize(Images, list[..i]) && videos == BucketSize(Videos, list[..i])
      invariant files == BucketSize(Files, list[..i])
    {
      var x := list[i];
      SizeStep(list, i);
      TallyStepAt(Kind, list, i, byType);
      TallyStepAt(Entity, list, i, byEntity);
      totalSize := totalSize + x.fileSize;
      byType := Bump(byType, x.attachmentType);
      byEntity := Bump(byEntity, x.entityType);
      match BucketOf(x.attachmentType) {
        case Images => images := images + x.fileSize;
        case Videos => videos := videos + x.fileSize;
        case Files => files := files + x.fileSize;
      }
      i := i + 1;
    }
    assert list[..i] == list;
    stats := AttachmentStats(|list|, totalSize, byType, byEntity, StorageUsage(images, videos, files));
  }

  /** The three storage buckets split the total size. */
  lemma {:induction false} BucketsSplitTotal(s: seq<AttachmentRow>)
    ensures BucketSize(Images, s) + BucketSize(Videos, s) + BucketSize(Files, s) == TotalSize(s)
  {
    if s != [] {
      BucketsSplitTotal(s[..|s| - 1]);
    }
  }

  /** The sum of the counts of the keys listed in `keys`. */
  function SumCounts(f: Facet, keys: seq<string>, s: seq<AttachmentRow>): nat {
    if keys == [] then 0 else CountKey(f, keys[0], s) + SumCounts(f, keys[1..], s)
  }

  /** The sum of a map's values over the keys listed in `keys`. */
  function SumMap(m: map<string, nat>, keys: seq<string>): nat {
    if keys == [] then 0 else (if keys[0] in m then m[keys[0]] else 0) + SumMap(m, keys[1..])
  }

  predicate Distinct(keys: seq<string>) {
    forall i, j :: 0 <= i < j < |keys| ==> keys[i] != keys[j]
  }

  function Occurrences(keys: seq<string>, k: string): nat {
    if keys == [] then 0 else (if keys[0] == k then 1 else 0) + Occurrences(keys[1..], k)
  }

  lemma {:induction false} OccurrencesDistinct(keys: seq<string>, k: string)
    requires Distinct(keys)
    ensures Occurrences(keys, k) == if k in keys then 1 else 0
  {
    if keys != [] {
      assert Distinct(keys[1..]) by {
        forall i, j | 0 <= i < j < |keys[1..]| ensures keys[1..][i] != keys[1..][j] {
          assert keys[1..][i] == keys[i + 1] && keys[1..][j] == keys[j + 1];
        }
      }
      OccurrencesDistinct(keys[1..], k);
      if keys[0] == k {
        assert k !in keys[1..] by {
          forall i | 0 <= i < |keys[1..]| ensures keys[1..][i] != k {
            assert keys[1..][i] == keys[i + 1];
          }
        }
      } else {
        assert k in keys <==> k in keys[1..] by {
          assert keys == [keys[0]] + keys[1..];
        }
      }
    }
  }

  lemma {:induction false} SumCountsSnoc(f: Facet, keys: seq<string>, s: seq<AttachmentRow>, x: AttachmentRow)
    ensures SumCounts(f, keys, s + [x]) == SumCounts(f, keys, s) + Occurrences(keys, Key(f, x))
  {
    var t := s + [x];
    assert t[..|t| - 1] == s;
    if keys != [] {
      SumCountsSnoc(f, keys[1..], s, x);
    }
  }

  /** Over distinct keys that include every key occurring, the counts add up to the
      number of rows. */
  lemma {:induction false} SumCountsIsLength(f: Facet, keys: seq<string>, s: seq<AttachmentRow>)
    requires Distinct(keys) && KeysOf(f, s) <= set k | k in keys
    ensures SumCounts(f, keys, s) == |s|
  {
    if s == [] {
      SumCountsEmpty(f, keys);
    } else {
      var p, x := s[..|s| - 1], s[|s| - 1];
      assert s == p + [x];
      SumCountsIsLength(f, keys, p);
      SumCountsSnoc(f, keys, p, x);
      OccurrencesDistinct(keys, Key(f, x));
    }
  }

  lemma {:induction false} SumCountsEmpty(f: Facet, keys: seq<string>)
    ensures SumCounts(f, keys, []) == 0
  {
    if keys != [] {
      SumCountsEmpty(f, keys[1..]);
    }
  }

  lemma {:induction false} SumMapIsSumCounts(f: Facet, keys: seq<string>, s: seq<AttachmentRow>, m: map<string, nat>)
    requires Tallies(f, s, m) && (set k | k in keys) <= m.Keys
    ensures SumMap(m, keys) == SumCounts(f, keys, s)
  {
    if keys != [] {
      assert (set k | k in keys[1..]) <= (set k | k in keys);
      SumMapIsSumCounts(f, keys[1..], s, m);
    }
  }

  /** Each counting map adds up to the number of attachments counted: summed over any
      listing of its keys without repeats, the type counts and the entity counts each
      give `totalAttachments`; and the buckets split the total size. */
  lemma StatsAddUp(s: seq<AttachmentRow>, stats: AttachmentStats, typeKeys: seq<string>, entityKeys: seq<string>)
    requires StatsSoFar(s, stats) && stats.totalAttachments == |s|
    requires Distinct(typeKeys) && (set k | k in typeKeys) == stats.byType.Keys
    requires Distinct(entityKeys) && (set k | k in entityKeys) == stats.byEntity.Keys
    ensures SumMap(stats.byType, typeKeys) == stats.totalAttachments
    ensures SumMap(stats.byEntity, entityKeys) == stats.totalAttachments
    ensures stats.storageUsage.images + stats.storageUsage.videos + stats.storageUsage.files == stats.totalSize
  {
    SumMapIsSumCounts(Kind, typeKeys, s, stats.byType);
    SumCountsIsLength(Kind, typeKeys, s);
    SumMapIsSumCounts(Entity, entityKeys, s, stats.byEntity);
    SumCountsIsLength(Entity, entityKeys, s);
    BucketsSplitTotal(s);
  }
}

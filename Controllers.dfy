/** The shared helpers of the HTTP handlers (server/controllers/helpers.go). A handler is
    modelled as a guard chain that either stops with an error reply or proceeds to the
    service with the arguments it passes on; the reply written after the service call is
    `Finish`. The gin context is a map from keys to the values `c.Set` stored. */
module ControllerHelpers {
  import opened Wrappers
  import opened Seqs
  import Text
  import ApiResponse
  import ApiErrors

  /** A value stored in the gin context: Go's `interface{}` holding a `uint`, a string or
      something else. */
  datatype CtxValue = UintValue(n: nat) | StringValue(s: string) | OtherValue

  type Context = map<string, CtxValue>

  /** The outcome of a guard chain: an error reply `c.JSON(status, api.Error(status, message))`
      written before the service is reached, or the arguments handed to the service. */
  datatype Step<A> = Stop(status: int, message: string) | Proceed(args: A)

  const UnauthorizedText := "未授权访问"

  /** `getUserID`: the stored `user_id` when it is a `uint`, else 0. */
  function GetUserID(c: Context): (id: nat)
    ensures "user_id" in c && c["user_id"].UintValue? ==> id == c["user_id"].n
    ensures "user_id" !in c || !c["user_id"].UintValue? ==> id == 0
  {
    if "user_id" !in c then 0
    else match c["user_id"]
      case UintValue(n) => n
      case _ => 0
  }

  /** `getUserIDRequired`: 401 exactly when the user id is 0. */
  function RequireUser(c: Context): (s: Step<nat>)
    ensures s.Stop? <==> GetUserID(c) == 0
    ensures s.Stop? ==> s.status == 401 && s.message == UnauthorizedText
    ensures s.Proceed? ==> s.args == GetUserID(c) && s.args != 0
  {
    var id := GetUserID(c);
    if id == 0 then Stop(401, UnauthorizedText) else Proceed(id)
  }

  const MaxUint32 := 0xFFFF_FFFF

  /** `strconv.ParseUint(s, 10, 32)`: a non-empty run of decimal digits, no sign, at most
      2^32 - 1. */
  function ParseUint32(s: string): (r: Option<nat>)
    ensures r.Some? <==> s != "" && Text.AllDigits(s) && Text.DigitsValue(s) <= MaxUint32
    ensures r.Some? ==> r.value == Text.DigitsValue(s) && r.value <= MaxUint32
  {
    if s != "" && Text.AllDigits(s) && Text.DigitsValue(s) <= MaxUint32 then Some(Text.DigitsValue(s))
    else None
  }

  /** The decimal form of every 32-bit unsigned value parses back to it. */
  lemma ParseUint32RoundTrip(n: nat)
    requires n <= MaxUint32
    ensures ParseUint32(Text.NatToString(n)) == Some(n)
  {
    Text.NatToStringRoundTrip(n);
  }

  /** `parseUintParam`: the error is `errors.ErrInvalidRequest` with a message naming the
      parameter, "missing" for an empty value and "invalid" for one that does not parse. */
  function ParseUintParam(param: string, name: string): (r: Result<nat, ApiErrors.APIError>)
    ensures r.Ok? <==> ParseUint32(param).Some?
    ensures r.Ok? ==> r.value == Text.DigitsValue(param)
    ensures param == "" ==> r == Err(ApiErrors.APIError(400, "缺少参数: " + name, ""))
    ensures param != "" && r.Err? ==> r == Err(ApiErrors.APIError(400, "无效的参数: " + name, ""))
  {
    if param == "" then Err(ApiErrors.ErrInvalidRequest("缺少参数: " + name, []))
    else match ParseUint32(param)
      case None => Err(ApiErrors.ErrInvalidRequest("无效的参数: " + name, []))
      case Some(v) => Ok(v)
  }

  /** `parseUintParamRequired`: a parse error becomes a 400 reply carrying the error's text. */
  function ParseUintParamRequired(param: string, name: string): (s: Step<nat>)
    ensures s.Proceed? <==> ParseUintParam(param, name).Ok?
    ensures s.Proceed? ==> s.args == ParseUintParam(param, name).value
    ensures s.Stop? ==> s.status == 400 && s.message == ApiErrors.ErrorText(ParseUintParam(param, name).error)
  {
    match ParseUintParam(param, name)
    case Err(e) => Stop(400, ApiErrors.ErrorText(e))
    case Ok(v) => Proceed(v)
  }

  /** The text of a rejected parameter is its message alone: the error has no details. */
  lemma ParamErrorText(param: string, name: string)
    requires ParseUintParamRequired(param, name).Stop?
    ensures param == "" ==> ParseUintParamRequired(param, name).message == "缺少参数: " + name
    ensures param != "" ==> ParseUintParamRequired(param, name).message == "无效的参数: " + name
  {
  }

  // ---------------------------------------------------------------- pagination

  const DefaultPageSize := 20
  const MaxPageSize := 100

  function ClampPage(page: int): int {
    if page <= 0 then 1 else page
  }

  function ClampPageSize(pageSize: int): int {
    if pageSize <= 0 then DefaultPageSize else if pageSize > MaxPageSize then MaxPageSize else pageSize
  }

  /** `validatePagination`: the two fields are updated through pointers, in the order of the
      source's three tests. */
  method ValidatePagination(page: int, pageSize: int) returns (newPage: int, newPageSize: int)
    ensures newPage == ClampPage(page) && newPageSize == ClampPageSize(pageSize)
  {
    newPage, newPageSize := page, pageSize;
    if newPage <= 0 {
      newPage := 1;
    }
    if newPageSize <= 0 {
      newPageSize := 20;
    }
    if newPageSize > 100 {
      newPageSize := 100;
    }
  }

  /** After clamping the page is at least 1 and the size lies in 1..100; values already in
      range are kept; clamping twice is clamping once. */
  lemma PaginationClamp(page: int, pageSize: int)
    ensures ClampPage(page) >= 1 && 1 <= ClampPageSize(pageSize) <= MaxPageSize
    ensures page >= 1 ==> ClampPage(page) == page
    ensures 1 <= pageSize <= MaxPageSize ==> ClampPageSize(pageSize) == pageSize
    ensures page <= 0 ==> ClampPage(page) == 1
    ensures pageSize <= 0 ==> ClampPageSize(pageSize) == DefaultPageSize
    ensures pageSize > MaxPageSize ==> ClampPageSize(pageSize) == MaxPageSize
    ensures ClampPage(ClampPage(page)) == ClampPage(page)
    ensures ClampPageSize(ClampPageSize(pageSize)) == ClampPageSize(pageSize)
  {
  }

  // ---------------------------------------------------------------- validators

  /** The handlers' own tag-type list: seven types, with color, material and brand. */
  const HandlerTagTypes: seq<string> := ["season", "occasion", "style", "color", "material", "brand", "custom"]

  function IsValidTagType(t: string): (b: bool)
    ensures b <==> t in {"season", "occasion", "style", "color", "material", "brand", "custom"}
  {
    Mem(HandlerTagTypes, t)
  }

  function IsValidSortOrder(s: string): (b: bool)
    ensures b <==> s in {"asc", "desc"}
  {
    s == "asc" || s == "desc"
  }

  const ClothingSortFields: seq<string> :=
    ["name", "price", "wear_count", "durability_score", "created_at", "updated_at", "brand", "color"]

  function IsValidClothingSortBy(s: string): (b: bool)
    ensures b <==> s in {"name", "price", "wear_count", "durability_score", "created_at", "updated_at", "brand", "color"}
  {
    Mem(ClothingSortFields, s)
  }

  // ---------------------------------------------------------------- after the service call

  /** The reply after the service call: 500 with the error's text, or `okStatus` with the
      data and the success message. */
  function Finish<D>(service: Result<D, string>, okStatus: int, okMessage: string): (r: (int, ApiResponse.Response<D>))
    ensures service.Err? ==> r.0 == 500 && r.1 == ApiResponse.Error(500, service.error)
    ensures service.Ok? ==> r.0 == okStatus && r.1.code == 200 && r.1.data == Some(service.value)
    ensures service.Ok? && okMessage != "" ==> r.1.message == okMessage
  {
    match service
    case Err(e) => (500, ApiResponse.InternalError([e]))
    case Ok(d) => (okStatus, ApiResponse.Success(d, [okMessage]))
  }

  // ---------------------------------------------------------------- batch delete

  /** `fmt.Sprintf("<noun> %d 失败: %v", id, err)`. */
  function DeleteErrorText(noun: string, id: nat, err: string): string {
    noun + " " + Text.NatToString(id) + " 失败: " + err
  }

  /** The number of deletions the service reported as successful (a nil error). */
  function Successes(results: seq<Option<string>>): (n: nat)
    ensures n <= |results|
  {
    if results == [] then 0
    else Successes(results[..|results| - 1]) + (if results[|results| - 1].None? then 1 else 0)
  }

  /** One error text per failed id, in request order. */
  function FailureTexts(noun: string, ids: seq<nat>, results: seq<Option<string>>): (r: seq<string>)
    requires |ids| == |results|
    ensures |r| == |results| - Successes(results)
  {
    if ids == [] then []
    else
      var k := |ids| - 1;
      FailureTexts(noun, ids[..k], results[..k])
        + (if results[k].Some? then [DeleteErrorText(noun, ids[k], results[k].value)] else [])
  }

  /** The failure texts list exactly the failed ids, in order: the i-th failure of the
      request is the i-th text. */
  lemma {:induction false} FailureTextsAreFailures(noun: string, ids: seq<nat>, results: seq<Option<string>>, j: nat)
    requires |ids| == |results| && j < |ids| && results[j].Some?
    ensures var before := |results[..j]| - Successes(results[..j]);
      before < |FailureTexts(noun, ids, results)|
      && FailureTexts(noun, ids, results)[before] == DeleteErrorText(noun, ids[j], results[j].value)
    decreases |ids|
  {
    var k := |ids| - 1;
    if j == k {
      assert ids[..k] == ids[..j] && results[..k] == results[..j];
    } else {
      assert results[..k][..j] == results[..j];
      assert ids[..k][j] == ids[j] && results[..k][j] == results[j];
      FailureTextsAreFailures(noun, ids[..k], results[..k], j);
    }
  }

  /** The loop of `BatchDeleteClothingItems` and `BatchDeleteAttachments`: `results[i]` is
      what the service answered when asked to delete `ids[i]` (None for a nil error). */
  method BatchDelete(noun: string, ids: seq<nat>, results: seq<Option<string>>)
    returns (successCount: nat, failureCount: int, errors: seq<string>)
    requires |results| == |ids|
    ensures successCount == Successes(results)
    ensures failureCount == |ids| - successCount && successCount + failureCount == |ids|
    ensures errors == FailureTexts(noun, ids, results) && |errors| == failureCount
  {
    successCount := 0;
    errors := [];
    var i := 0;
    while i < |ids|
      invariant 0 <= i <= |ids|
      invariant successCount == Successes(results[..i])
      invariant errors == FailureTexts(noun, ids[..i], results[..i])
    {
      assert ids[..i + 1][..i] == ids[..i] && results[..i + 1][..i] == results[..i];
      if results[i].Some? {
        errors := errors + [DeleteErrorText(noun, ids[i], results[i].value)];
      } else {
        successCount := successCount + 1;
      }
      i := i + 1;
    }
    assert ids[..i] == ids && results[..i] == results;
    failureCount := |ids| - successCount;
  }
}

/** The clothing handlers (server/controllers/clothing.go): their guard order and the
    arguments they pass on. A binding failure is the error text of `ShouldBind*`. */
module ClothingController {
  import opened Wrappers
  import opened ControllerHelpers
  import Enums
  import Text

  datatype CreateItemRequest = CreateItemRequest(name: string, categoryId: nat, status: string)

  /** `CreateClothingItem`: user, binding, then a status that is empty or valid. */
  function CreateClothingItem(c: Context, bind: Result<CreateItemRequest, string>): (s: Step<(nat, CreateItemRequest)>)
    ensures s.Proceed? <==> GetUserID(c) != 0 && bind.Ok?
                            && (bind.value.status == "" || Enums.IsValidClothingStatus(bind.value.status))
    ensures s.Proceed? ==> s.args == (GetUserID(c), bind.value)
    ensures GetUserID(c) == 0 ==> s == Stop(401, UnauthorizedText)
    ensures GetUserID(c) != 0 && bind.Err? ==> s == Stop(400, "请求参数错误: " + bind.error)
    ensures GetUserID(c) != 0 && bind.Ok? && bind.value.status != "" && !Enums.IsValidClothingStatus(bind.value.status)
            ==> s == Stop(400, "无效的衣物状态")
  {
    match RequireUser(c)
    case Stop(st, m) => Stop(st, m)
    case Proceed(userId) =>
      match bind
      case Err(e) => Stop(400, "请求参数错误: " + e)
      case Ok(req) =>
        if req.status != "" && !Enums.IsValidClothingStatus(req.status) then Stop(400, "无效的衣物状态")
        else Proceed((userId, req))
  }

  datatype ListQuery = ListQuery(page: int, pageSize: int, sortBy: string, sortOrder: string, status: Option<string>)

  /** `GetClothingItems`: pagination is normalised first, then sort field, sort direction and
      status are checked in that order; the service receives the normalised query. */
  function GetClothingItems(c: Context, bind: Result<ListQuery, string>): (s: Step<(nat, ListQuery)>)
    ensures s.Proceed? <==>
              GetUserID(c) != 0 && bind.Ok?
              && (bind.value.sortBy == "" || IsValidClothingSortBy(bind.value.sortBy))
              && (bind.value.sortOrder == "" || IsValidSortOrder(bind.value.sortOrder))
              && (bind.value.status.None? || Enums.IsValidClothingStatus(bind.value.status.value))
    ensures s.Proceed? ==>
              s.args.0 == GetUserID(c)
              && s.args.1 == bind.value.(page := ClampPage(bind.value.page), pageSize := ClampPageSize(bind.value.pageSize))
    ensures s.Proceed? ==> s.args.1.page >= 1 && 1 <= s.args.1.pageSize <= MaxPageSize
    ensures GetUserID(c) == 0 ==> s == Stop(401, UnauthorizedText)
    ensures GetUserID(c) != 0 && bind.Err? ==> s == Stop(400, "查询参数错误: " + bind.error)
    ensures GetUserID(c) != 0 && bind.Ok? && bind.value.sortBy != "" && !IsValidClothingSortBy(bind.value.sortBy)
            ==> s == Stop(400, "无效的排序字段")
  {
    match RequireUser(c)
    case Stop(st, m) => Stop(st, m)
    case Proceed(userId) =>
      match bind
      case Err(e) => Stop(400, "查询参数错误: " + e)
      case Ok(req) =>
        var q := req.(page := ClampPage(req.page), pageSize := ClampPageSize(req.pageSize));
        PaginationClamp(req.page, req.pageSize);
        if q.sortBy != "" && !IsValidClothingSortBy(q.sortBy) then Stop(400, "无效的排序字段")
        else if q.sortOrder != "" && !IsValidSortOrder(q.sortOrder) then Stop(400, "无效的排序方向")
        else if q.status.Some? && !Enums.IsValidClothingStatus(q.status.value) then Stop(400, "无效的衣物状态")
        else Proceed((userId, q))
  }

  /** A bad sort direction is reported only when the sort field is acceptable, and a bad
      status only when both sort parameters are. */
  lemma ListGuardOrder(c: Context, q: ListQuery)
    requires GetUserID(c) != 0
    ensures (q.sortBy == "" || IsValidClothingSortBy(q.sortBy)) && q.sortOrder != "" && !IsValidSortOrder(q.sortOrder)
            ==> GetClothingItems(c, Ok(q)) == Stop(400, "无效的排序方向")
    ensures (q.sortBy == "" || IsValidClothingSortBy(q.sortBy)) && (q.sortOrder == "" || IsValidSortOrder(q.sortOrder))
            && q.status.Some? && !Enums.IsValidClothingStatus(q.status.value)
            ==> GetClothingItems(c, Ok(q)) == Stop(400, "无效的衣物状态")
  {
  }

  datatype CreateTagRequest = CreateTagRequest(name: string, kind: string, color: string, description: string)

  /** `CreateTag`: user, binding, then the seven-type check of the handlers. */
  function CreateTag(c: Context, bind: Result<CreateTagRequest, string>): (s: Step<(nat, CreateTagRequest)>)
    ensures s.Proceed? <==> GetUserID(c) != 0 && bind.Ok? && IsValidTagType(bind.value.kind)
    ensures s.Proceed? ==> s.args == (GetUserID(c), bind.value)
    ensures GetUserID(c) == 0 ==> s == Stop(401, UnauthorizedText)
    ensures GetUserID(c) != 0 && bind.Err? ==> s == Stop(400, "请求参数错误: " + bind.error)
    ensures GetUserID(c) != 0 && bind.Ok? && !IsValidTagType(bind.value.kind) ==> s == Stop(400, "无效的标签类型")
  {
    match RequireUser(c)
    case Stop(st, m) => Stop(st, m)
    case Proceed(userId) =>
      match bind
      case Err(e) => Stop(400, "请求参数错误: " + e)
      case Ok(req) => if !IsValidTagType(req.kind) then Stop(400, "无效的标签类型") else Proceed((userId, req))
  }

  /** `GetTagsByType`: no user is required; the type must be one of the seven. */
  function GetTagsByType(c: Context, kind: string): (s: Step<(string, nat)>)
    ensures s.Proceed? <==> IsValidTagType(kind)
    ensures s.Proceed? ==> s.args == (kind, GetUserID(c))
    ensures s.Stop? ==> s == Stop(400, "无效的标签类型")
  {
    if !IsValidTagType(kind) then Stop(400, "无效的标签类型") else Proceed((kind, GetUserID(c)))
  }

  /** `BatchDeleteClothingItems`: the reply's counts, after the user and binding checks. */
  datatype BatchResult = BatchResult(successCount: nat, failureCount: int, errors: seq<string>)

  method BatchDeleteClothingItems(c: Context, bind: Result<seq<nat>, string>, results: seq<Option<string>>)
    returns (s: Step<BatchResult>)
    requires bind.Ok? ==> |results| == |bind.value|
    ensures GetUserID(c) == 0 ==> s == Stop(401, UnauthorizedText)
    ensures GetUserID(c) != 0 && bind.Err? ==> s == Stop(400, "请求参数错误: " + bind.error)
    ensures GetUserID(c) != 0 && bind.Ok? ==>
              s.Proceed?
              && s.args.successCount + s.args.failureCount == |bind.value|
              && s.args.successCount == Successes(results)
              && s.args.errors == FailureTexts("删除衣物", bind.value, results)
  {
    var user := RequireUser(c);
    if user.Stop? {
      return Stop(user.status, user.message);
    }
    if bind.Err? {
      return Stop(400, "请求参数错误: " + bind.error);
    }
    var ok, failed, errors := BatchDelete("删除衣物", bind.value, results);
    s := Proceed(BatchResult(ok, failed, errors));
  }

  /** `RecordWear`: after a successful binding the reply is 201 with nil data (the unit
      value here); nothing is handed to a service. */
  function RecordWear<R>(bind: Result<R, string>): (r: (int, ApiResponse.Response<()>))
    ensures bind.Err? ==> r == (400, ApiResponse.Error(400, "请求参数错误: " + bind.error))
    ensures bind.Ok? ==> r.0 == 201 && r.1.code == 200 && r.1.message == "穿着记录添加成功" && r.1.data == Some(())
  {
    match bind
    case Err(e) => (400, ApiResponse.BadRequest("请求参数错误: " + e))
    case Ok(_) => (201, ApiResponse.Success((), ["穿着记录添加成功"]))
  }
}

/** The user handlers (server/controllers/user.go). */
module UserController {
  import opened Wrappers
  import opened ControllerHelpers
  import Enums
  import Text

  /** `GetProfile`, `ChangePassword`, `GetPreferences`, `ExportData`: 401 when the context
      user id is 0, else the user id is handed on. */
  function GetProfile(c: Context): (s: Step<nat>)
    ensures s.Stop? <==> GetUserID(c) == 0
    ensures s.Stop? ==> s == Stop(401, UnauthorizedText)
    ensures s.Proceed? ==> s.args == GetUserID(c)
  {
    RequireUser(c)
  }

  datatype UpdateProfileRequest = UpdateProfileRequest(
    nickname: Option<string>, email: Option<string>, gender: Option<string>,
    height: Option<int>, weight: Option<int>)

  /** `UpdateProfile`: user, binding, then a gender that is absent or valid. */
  function UpdateProfile(c: Context, bind: Result<UpdateProfileRequest, string>): (s: Step<(nat, UpdateProfileRequest)>)
    ensures s.Proceed? <==>
              GetUserID(c) != 0 && bind.Ok? && (bind.value.gender.None? || Enums.IsValidGender(bind.value.gender.value))
    ensures s.Proceed? ==> s.args == (GetUserID(c), bind.value)
    ensures GetUserID(c) == 0 ==> s == Stop(401, UnauthorizedText)
    ensures GetUserID(c) != 0 && bind.Err? ==> s == Stop(400, "请求参数错误: " + bind.error)
    ensures GetUserID(c) != 0 && bind.Ok? && bind.value.gender.Some? && !Enums.IsValidGender(bind.value.gender.value)
            ==> s == Stop(400, "无效的性别类型")
  {
    if GetUserID(c) == 0 then Stop(401, UnauthorizedText)
    else match bind
      case Err(e) => Stop(400, "请求参数错误: " + e)
      case Ok(req) =>
        if req.gender.Some? && !Enums.IsValidGender(req.gender.value) then Stop(400, "无效的性别类型")
        else Proceed((GetUserID(c), req))
  }

  /** `DeleteUser`: the id is parsed first, then the user is required, then only a user
      deleting their own account reaches the service. */
  function DeleteUser(c: Context, idParam: string): (s: Step<nat>)
    ensures ParseUint32(idParam).None? ==> s == Stop(400, "无效的用户ID")
    ensures ParseUint32(idParam).Some? && GetUserID(c) == 0 ==> s == Stop(401, UnauthorizedText)
    ensures ParseUint32(idParam).Some? && GetUserID(c) != 0 && GetUserID(c) != ParseUint32(idParam).value
            ==> s == Stop(403, "无权限删除该用户")
    ensures s.Proceed? <==> ParseUint32(idParam).Some? && GetUserID(c) != 0 && GetUserID(c) == ParseUint32(idParam).value
    ensures s.Proceed? ==> s.args == GetUserID(c)
  {
    match ParseUint32(idParam)
    case None => Stop(400, "无效的用户ID")
    case Some(target) =>
      var current := GetUserID(c);
      if current == 0 then Stop(401, UnauthorizedText)
      else if current != target then Stop(403, "无权限删除该用户")
      else Proceed(target)
  }

  /** Only self-deletion reaches the service, and an unparsable id is reported as such
      even when no user is logged in. */
  lemma DeleteUserOnlySelf(c: Context, idParam: string)
    ensures DeleteUser(c, idParam).Proceed? ==> DeleteUser(c, idParam).args == GetUserID(c) != 0
    ensures GetUserID(c) == 0 && idParam == "x" ==> DeleteUser(c, idParam).status == 400
  {
    if GetUserID(c) == 0 && idParam == "x" {
      assert !Text.AllDigits(idParam) by { assert !Text.IsDigit(idParam[0]); }
    }
  }

  /** `UpdatePreferences`' clamp of `ItemsPerPage`: above the maximum becomes the maximum,
      then zero or less becomes the default. */
  function ClampItemsPerPage(n: int): int {
    var m := if n > MaxPageSize then MaxPageSize else n;
    if m <= 0 then DefaultPageSize else m
  }

  /** The clamp leaves the value in 1..100 and agrees with `validatePagination`'s page size. */
  lemma ItemsPerPageClamp(n: int)
    ensures 1 <= ClampItemsPerPage(n) <= MaxPageSize
    ensures n > MaxPageSize ==> ClampItemsPerPage(n) == 100
    ensures n <= 0 ==> ClampItemsPerPage(n) == 20
    ensures 1 <= n <= MaxPageSize ==> ClampItemsPerPage(n) == n
    ensures ClampItemsPerPage(n) == ClampPageSize(n)
  {
  }

  /** The display settings of a bound preferences request, updated in place. */
  class DisplaySettings {
    var theme: string
    var itemsPerPage: int

    constructor (theme: string, itemsPerPage: int)
      ensures this.theme == theme && this.itemsPerPage == itemsPerPage
    {
      this.theme := theme;
      this.itemsPerPage := itemsPerPage;
    }

    method Clamp()
      modifies this
      ensures itemsPerPage == ClampItemsPerPage(old(itemsPerPage)) && theme == old(theme)
    {
      if itemsPerPage > MaxPageSize {
        itemsPerPage := MaxPageSize;
      }
      if itemsPerPage <= 0 {
        itemsPerPage := DefaultPageSize;
      }
    }
  }

  /** `UpdatePreferences`: user, binding, clamp, then 200; nothing is stored. */
  method UpdatePreferences(c: Context, bindError: Option<string>, settings: DisplaySettings) returns (s: Step<()>)
    modifies settings
    ensures GetUserID(c) == 0 ==> s == Stop(401, UnauthorizedText) && settings.itemsPerPage == old(settings.itemsPerPage)
    ensures GetUserID(c) != 0 && bindError.Some? ==> s == Stop(400, "请求参数错误: " + bindError.value)
    ensures GetUserID(c) != 0 && bindError.None? ==>
              s == Proceed(()) && settings.itemsPerPage == ClampItemsPerPage(old(settings.itemsPerPage))
  {
    if GetUserID(c) == 0 {
      return Stop(401, UnauthorizedText);
    }
    if bindError.Some? {
      return Stop(400, "请求参数错误: " + bindError.value);
    }
    settings.Clamp();
    s := Proceed(());
  }

  datatype NotificationPrefs = NotificationPrefs(email: bool, push: bool, maintenanceReminders: bool,
                                                 outfitSuggestions: bool, weatherAlerts: bool)
  datatype PrivacySettings = PrivacySettings(profileVisibility: string, showRealName: bool,
                                             showLocation: bool, allowDataExport: bool)
  datatype DisplayPrefs = DisplayPrefs(theme: string, gridSize: string, showPrices: bool,
                                       showWearCount: bool, defaultSortBy: string, itemsPerPage: int)
  datatype Preferences = Preferences(language: string, timezone: string, currency: string,
                                     notifications: NotificationPrefs, privacy: PrivacySettings,
                                     display: DisplayPrefs)

  const DefaultPreferences := Preferences("zh-CN", "Asia/Shanghai", "CNY",
    NotificationPrefs(true, true, true, true, true),
    PrivacySettings("private", false, false, true),
    DisplayPrefs("auto", "medium", true, true, "created_at", 20))

  /** `GetPreferences`: fixed defaults for any logged-in user. */
  function GetPreferences(c: Context): (s: Step<Preferences>)
    ensures s.Stop? <==> GetUserID(c) == 0
    ensures s.Proceed? ==> s.args.display.itemsPerPage == DefaultPageSize && s.args.privacy.profileVisibility == "private"
    ensures s.Proceed? ==> ClampItemsPerPage(s.args.display.itemsPerPage) == s.args.display.itemsPerPage
    ensures s.Proceed? ==> IsValidClothingSortBy(s.args.display.defaultSortBy)
  {
    if GetUserID(c) == 0 then Stop(401, UnauthorizedText) else Proceed(DefaultPreferences)
  }
}

/** The attachment handlers (server/controllers/attachment.go). */
module AttachmentController {
  import opened Wrappers
  import opened ControllerHelpers
  import Enums
  import Text

  datatype UploadRequest = UploadRequest(userId: nat, entityType: string, entityId: nat, fileName: string)

  /** `UploadAttachment`: user, binding, the request's user id overwritten, then the entity type. */
  function UploadAttachment(c: Context, bind: Result<UploadRequest, string>): (s: Step<UploadRequest>)
    ensures s.Proceed? <==> GetUserID(c) != 0 && bind.Ok? && Enums.IsValidEntityType(bind.value.entityType)
    ensures s.Proceed? ==> s.args == bind.value.(userId := GetUserID(c))
    ensures GetUserID(c) == 0 ==> s == Stop(401, UnauthorizedText)
    ensures GetUserID(c) != 0 && bind.Err? ==> s == Stop(400, "请求参数错误: " + bind.error)
    ensures GetUserID(c) != 0 && bind.Ok? && !Enums.IsValidEntityType(bind.value.entityType) ==> s == Stop(400, "无效的实体类型")
  {
    match RequireUser(c)
    case Stop(st, m) => Stop(st, m)
    case Proceed(userId) =>
      match bind
      case Err(e) => Stop(400, "请求参数错误: " + e)
      case Ok(req) =>
        var r := req.(userId := userId);
        if !Enums.IsValidEntityType(r.entityType) then Stop(400, "无效的实体类型") else Proceed(r)
  }

  /** Whatever user id a client puts in the request, the service sees the logged-in user. */
  lemma UploadUsesAuthenticatedUser(c: Context, req: UploadRequest, forged: nat)
    requires UploadAttachment(c, Ok(req)).Proceed?
    ensures UploadAttachment(c, Ok(req.(userId := forged))) == UploadAttachment(c, Ok(req))
    ensures UploadAttachment(c, Ok(req)).args.userId == GetUserID(c) != 0
  {
  }

  /** `GetAttachmentsByEntity`: the entity type is checked before the id is parsed. */
  function GetAttachmentsByEntity(entityType: string, idParam: string): (s: Step<(string, nat)>)
    ensures !Enums.IsValidEntityType(entityType) ==> s == Stop(400, "无效的实体类型")
    ensures Enums.IsValidEntityType(entityType) && ParseUintParamRequired(idParam, "entity_id").Stop?
            ==> s == Stop(400, ParseUintParamRequired(idParam, "entity_id").message)
    ensures s.Proceed? <==> Enums.IsValidEntityType(entityType) && ParseUint32(idParam).Some?
    ensures s.Proceed? ==> s.args == (entityType, ParseUint32(idParam).value)
  {
    if !Enums.IsValidEntityType(entityType) then Stop(400, "无效的实体类型")
    else match ParseUintParamRequired(idParam, "entity_id")
      case Stop(st, m) => Stop(st, m)
      case Proceed(id) => Proceed((entityType, id))
  }

  /** `DeleteAttachment`: user, then the id; the service receives both. */
  function DeleteAttachment(c: Context, idParam: string): (s: Step<(nat, nat)>)
    ensures GetUserID(c) == 0 ==> s == Stop(401, UnauthorizedText)
    ensures s.Proceed? <==> GetUserID(c) != 0 && ParseUint32(idParam).Some?
    ensures s.Proceed? ==> s.args == (ParseUint32(idParam).value, GetUserID(c))
  {
    match RequireUser(c)
    case Stop(st, m) => Stop(st, m)
    case Proceed(userId) =>
      match ParseUintParamRequired(idParam, "id")
      case Stop(st, m) => Stop(st, m)
      case Proceed(id) => Proceed((id, userId))
  }

  datatype BatchResult = BatchResult(successCount: nat, failureCount: int, errors: seq<string>)

  /** `BatchDeleteAttachments`: the same counting loop as the clothing batch delete. */
  method BatchDeleteAttachments(c: Context, bind: Result<seq<nat>, string>, results: seq<Option<string>>)
    returns (s: Step<BatchResult>)
    requires bind.Ok? ==> |results| == |bind.value|
    ensures GetUserID(c) == 0 ==> s == Stop(401, UnauthorizedText)
    ensures GetUserID(c) != 0 && bind.Err? ==> s == Stop(400, "请求参数错误: " + bind.error)
    ensures GetUserID(c) != 0 && bind.Ok? ==>
              s.Proceed?
              && s.args.successCount + s.args.failureCount == |bind.value|
              && s.args.successCount == Successes(results)
              && s.args.errors == FailureTexts("删除附件", bind.value, results)
  {
    var user := RequireUser(c);
    if user.Stop? {
      return Stop(user.status, user.message);
    }
    if bind.Err? {
      return Stop(400, "请求参数错误: " + bind.error);
    }
    var ok, failed, errors := BatchDelete("删除附件", bind.value, results);
    s := Proceed(BatchResult(ok, failed, errors));
  }
}

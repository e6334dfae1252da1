/** The response envelope of the server's API layer (server/api/response.go). Variadic
    message arguments are sequences; `interface{}` data is a type parameter, and nil
    data is None. */
module ApiResponse {
  import opened Wrappers
  import GoInt

  datatype Response<D> = Response(code: int, message: string, data: Option<D>)

  /** `Success(data, message...)`: code 200; the first message unless it is missing or empty. */
  function Success<D>(data: D, message: seq<string>): (r: Response<D>)
    ensures r.code == 200 && r.data == Some(data)
    ensures |message| > 0 && message[0] != "" ==> r.message == message[0]
    ensures |message| == 0 || message[0] == "" ==> r.message == "success"
  {
    Response(200, if |message| > 0 && message[0] != "" then message[0] else "success", Some(data))
  }

  function Error<D>(code: int, message: string): (r: Response<D>)
    ensures r.code == code && r.message == message && r.data.None?
  {
    Response(code, message, None)
  }

  function BadRequest<D>(message: string): (r: Response<D>)
    ensures r == Error(400, message)
  {
    Error(400, message)
  }

  /** The message of a wrapper: the default only when no argument is passed at all. */
  function MessageOr(message: seq<string>, default: string): (m: string)
    ensures |message| > 0 ==> m == message[0]
    ensures |message| == 0 ==> m == default
  {
    if |message| > 0 then message[0] else default
  }

  function Unauthorized<D>(message: seq<string>): (r: Response<D>)
    ensures r == Error(401, MessageOr(message, "unauthorized"))
  {
    Error(401, MessageOr(message, "unauthorized"))
  }

  function Forbidden<D>(message: seq<string>): (r: Response<D>)
    ensures r == Error(403, MessageOr(message, "forbidden"))
  {
    Error(403, MessageOr(message, "forbidden"))
  }

  function NotFound<D>(message: seq<string>): (r: Response<D>)
    ensures r == Error(404, MessageOr(message, "not found"))
  {
    Error(404, MessageOr(message, "not found"))
  }

  function InternalError<D>(message: seq<string>): (r: Response<D>)
    ensures r == Error(500, MessageOr(message, "internal server error"))
  {
    Error(500, MessageOr(message, "internal server error"))
  }

  /** An explicit empty message is kept by the error wrappers but replaced by `Success`. */
  lemma EmptyMessageHandling<D>(data: D)
    ensures Unauthorized<D>([""]).message == "" && NotFound<D>([""]).message == ""
    ensures Unauthorized<D>([]).message == "unauthorized" && InternalError<D>([]).message == "internal server error"
    ensures Success(data, [""]).message == "success"
  {
  }

  datatype PageData<D> = PageData(items: D, total: int, page: int, size: int, pages: int)

  /** The page count of `SuccessWithPage`: truncating quotient, plus one for a positive
      remainder. Go panics on a zero size, hence the precondition. */
  function PageCount(total: int, size: int): int
    requires size != 0
  {
    GoInt.Div(total, size) + (if GoInt.Mod(total, size) > 0 then 1 else 0)
  }

  function SuccessWithPage<D>(items: D, total: int, page: int, size: int, message: seq<string>): (r: Response<PageData<D>>)
    requires size != 0
    ensures r == Success(PageData(items, total, page, size, PageCount(total, size)), message)
  {
    Success(PageData(items, total, page, size, PageCount(total, size)), message)
  }

  /** For a positive size the page count is the ceiling of total/size: zero for no items,
      and otherwise the last page is partly or wholly filled. */
  lemma PageCountIsCeil(total: nat, size: int)
    requires size > 0
    ensures GoInt.IsCeil(PageCount(total, size), total, size)
    ensures total == 0 ==> PageCount(total, size) == 0
  {
    var q, r := total / size, total % size;
    assert total == q * size + r;
    assert (q + 1) * size == q * size + size;
    if r > 0 {
      assert PageCount(total, size) == q + 1;
    } else {
      assert PageCount(total, size) == q;
      if q > 0 {
        assert (q - 1) * size == q * size - size;
      }
    }
  }
}

/** The error type of the server's API layer (server/api/errors/api_error.go). */
module ApiErrors {

  datatype APIError = APIError(code: int, message: string, details: string)

  /** `Error()`: "Message: Details" when there are details, else the message. */
  function ErrorText(e: APIError): (s: string)
    ensures e.details == "" ==> s == e.message
    ensures e.details != "" ==> s == e.message + ": " + e.details
  {
    if e.details != "" then e.message + ": " + e.details else e.message
  }

  /** Only the first details argument is kept. */
  function NewAPIError(code: int, message: string, details: seq<string>): (e: APIError)
    ensures e.code == code && e.message == message
    ensures e.details == if |details| > 0 then details[0] else ""
  {
    APIError(code, message, if |details| > 0 then details[0] else "")
  }

  function NewInternalError(message: string, details: seq<string>): (e: APIError)
    ensures e == NewAPIError(500, message, details)
  {
    APIError(500, message, if |details| > 0 then details[0] else "")
  }

  function ErrInvalidRequest(message: string, details: seq<string>): (e: APIError)
    ensures e == NewAPIError(400, message, details)
  {
    NewAPIError(400, message, details)
  }

  function ErrUnauthorized(message: string, details: seq<string>): (e: APIError)
    ensures e == NewAPIError(401, message, details)
  {
    NewAPIError(401, message, details)
  }

  function ErrForbidden(message: string, details: seq<string>): (e: APIError)
    ensures e == NewAPIError(403, message, details)
  {
    NewAPIError(403, message, details)
  }

  function ErrNotFound(message: string, details: seq<string>): (e: APIError)
    ensures e == NewAPIError(404, message, details)
  {
    NewAPIError(404, message, details)
  }

  function ErrConflict(message: string, details: seq<string>): (e: APIError)
    ensures e == NewAPIError(409, message, details)
  {
    NewAPIError(409, message, details)
  }

  function ErrInternalServer(message: string, details: seq<string>): (e: APIError)
    ensures e == NewAPIError(500, message, details)
  {
    NewAPIError(500, message, details)
  }

  /** An error built without details prints as its message, whatever extra details
      arguments beyond the first were given. */
  lemma ErrorTextOfNewError(code: int, message: string, details: seq<string>)
    ensures |details| == 0 ==> ErrorText(NewAPIError(code, message, details)) == message
    ensures |details| > 1 ==> NewAPIError(code, message, details) == NewAPIError(code, message, details[..1])
  {
  }
}

/** The result builders of server/dto/response.go. */
module DtoResponse {
  import opened Wrappers
  import GoInt

  /** `Result`; an unset message is "". */
  datatype DtoResult<D> = DtoResult(success: bool, code: int, message: string, data: Option<D>)

  datatype PaginationInfo = PaginationInfo(page: int, pageSize: int, total: int, totalPages: int)

  datatype PaginatedResult<D> = PaginatedResult(result: DtoResult<D>, pagination: PaginationInfo)

  function CreateSuccess<D>(data: D, message: seq<string>): (r: DtoResult<D>)
    ensures r.success && r.code == 200 && r.data == Some(data)
    ensures r.message == if |message| > 0 && message[0] != "" then message[0] else ""
  {
    DtoResult(true, 200, if |message| > 0 && message[0] != "" then message[0] else "", Some(data))
  }

  function CreateError<D>(code: int, message: string): (r: DtoResult<D>)
    ensures !r.success && r.code == code && r.message == message && r.data.None?
  {
    DtoResult(false, code, message, None)
  }

  /** `(total + pageSize - 1) / pageSize`, raised to 0 when negative. */
  function TotalPages(total: int, pageSize: int): (p: int)
    requires pageSize != 0
    ensures p >= 0
  {
    var p := GoInt.Div(total + pageSize - 1, pageSize);
    if p < 0 then 0 else p
  }

  function CreatePaginatedResult<D>(data: D, total: int, page: int, pageSize: int, message: seq<string>): (r: PaginatedResult<D>)
    requires pageSize != 0
    ensures r.result == CreateSuccess(data, message)
    ensures r.pagination == PaginationInfo(page, pageSize, total, TotalPages(total, pageSize))
  {
    PaginatedResult(DtoResult(true, 200, if |message| > 0 && message[0] != "" then message[0] else "", Some(data)),
                    PaginationInfo(page, pageSize, total, TotalPages(total, pageSize)))
  }
}

/** The error helpers of server/common/errors.go. Writing JSON through the gin context is
    modelled as returning the status and the body's fields. */
module CommonErrors {
  import opened Wrappers
  import GoInt
  import ApiErrors

  /** This package's own APIError; its `Error()` is the message alone. */
  datatype APIError = APIError(code: int, message: string, details: string)

  function ErrorText(e: APIError): string {
    e.message
  }

  const ErrInvalidRequest := APIError(400, "Invalid request", "")
  const ErrUnauthorized := APIError(401, "Unauthorized", "")
  const ErrForbidden := APIError(403, "Forbidden", "")
  const ErrNotFound := APIError(404, "Resource not found", "")
  const ErrConflict := APIError(409, "Resource conflict", "")
  const ErrInternalServer := APIError(500, "Internal server error", "")
  const ErrServiceUnavailable := APIError(503, "Service unavailable", "")

  function NewAPIError(code: int, message: string, details: seq<string>): (e: APIError)
    ensures e.code == code && e.message == message
    ensures e.details == if |details| > 0 then details[0] else ""
  {
    APIError(code, message, if |details| > 0 then details[0] else "")
  }

  /** The error value handed to `HandleError`: this package's APIError, or any other
      error, known by its `Error()` text. */
  datatype ErrorValue = Common(e: APIError) | Other(text: string)

  datatype Reply = Reply(status: int, body: map<string, string>)

  /** The status and body with which a plain error's text is answered. */
  function PlainReply(text: string): (r: Reply)
    ensures text == "user not found" ==> r == Reply(404, map["error" := "User not found"])
    ensures text == "username already exists" ==> r == Reply(409, map["error" := "Username already exists"])
    ensures text == "email already exists" ==> r == Reply(409, map["error" := "Email already exists"])
    ensures text == "invalid username or password" ==> r == Reply(401, map["error" := "Invalid username or password"])
    ensures text == "invalid old password" ==> r == Reply(400, map["error" := "Invalid old password"])
    ensures text !in {"user not found", "username already exists", "email already exists",
                      "invalid username or password", "invalid old password"}
            ==> r == Reply(500, map["error" := "Internal server error"])
  {
    match text
    case "user not found" => Reply(404, map["error" := "User not found"])
    case "username already exists" => Reply(409, map["error" := "Username already exists"])
    case "email already exists" => Reply(409, map["error" := "Email already exists"])
    case "invalid username or password" => Reply(401, map["error" := "Invalid username or password"])
    case "invalid old password" => Reply(400, map["error" := "Invalid old password"])
    case _ => Reply(500, map["error" := "Internal server error"])
  }

  function HandleError(err: ErrorValue): (r: Reply)
    ensures err.Common? ==> r == Reply(err.e.code, map["error" := err.e.message, "details" := err.e.details])
    ensures err.Other? ==> r == PlainReply(err.text)
  {
    match err
    case Common(e) => Reply(e.code, map["error" := e.message, "details" := e.details])
    case Other(t) => PlainReply(t)
  }

  /** The reply to an error always has an "error" field, and only the five known texts
      escape status 500 when the error is not this package's type. */
  lemma HandleErrorShape(err: ErrorValue)
    ensures "error" in HandleError(err).body
    ensures err.Other? && HandleError(err).status != 500 ==>
      err.text in {"user not found", "username already exists", "email already exists",
                   "invalid username or password", "invalid old password"}
  {
  }

  /** An error of the api/errors package is not this package's type, so it is answered by
      its text: the registration conflict built with code 500 is answered 409, while the
      same conflict with details attached is answered 500. */
  lemma ForeignErrorAnsweredByText(details: string)
    requires details != ""
    ensures HandleError(Other(ApiErrors.ErrorText(ApiErrors.NewInternalError("username already exists", [])))).status == 409
    ensures HandleError(Other(ApiErrors.ErrorText(ApiErrors.NewInternalError("username already exists", [details])))).status == 500
  {
    var withDetails := ApiErrors.ErrorText(ApiErrors.NewInternalError("username already exists", [details]));
    assert withDetails == "username already exists: " + details;
    assert withDetails[0] == 'u' && withDetails[4] == 'n' && |withDetails| > 23;
    assert withDetails != "user not found" && withDetails != "username already exists";
  }

  /** `SuccessResponse`/`CreatedResponse`: the body always has "success" and "data"; the
      "message" key only when a message argument is passed. */
  datatype SuccessReply<D> = SuccessReply(status: int, success: bool, data: D, message: Option<string>)

  function SuccessResponse<D>(data: D, message: seq<string>): (r: SuccessReply<D>)
    ensures r.status == 200 && r.success && r.data == data
    ensures r.message.Some? <==> |message| > 0
    ensures |message| > 0 ==> r.message.value == message[0]
  {
    SuccessReply(200, true, data, if |message| > 0 then Some(message[0]) else None)
  }

  function CreatedResponse<D>(data: D, message: seq<string>): (r: SuccessReply<D>)
    ensures r.status == 201 && r.success && r.data == data
    ensures r.message.Some? <==> |message| > 0
    ensures |message| > 0 ==> r.message.value == message[0]
  {
    SuccessReply(201, true, data, if |message| > 0 then Some(message[0]) else None)
  }

  datatype Pagination = Pagination(total: int, page: int, pageSize: int, totalPages: int)

  /** What `PaginatedResponse` leads to: the reply it writes, or the run-time panic of
      its integer division when the page size is 0 (what gin's recovery then answers is
      not part of this model). */
  datatype PaginatedReply<D> =
    | Paginated(status: int, success: bool, data: D, pagination: Pagination)
    | DivideByZeroPanic

  /** `total_pages` of `PaginatedResponse`: `(total + pageSize - 1) / pageSize`, unclamped. */
  function PaginatedTotalPages(total: int, pageSize: int): int
    requires pageSize != 0
  {
    GoInt.Div(total + pageSize - 1, pageSize)
  }

  /** `PaginatedResponse`: status 200 with "success", the data as given and the
      pagination object; a page size of 0 panics before anything is written. */
  function PaginatedResponse<D>(data: D, total: int, page: int, pageSize: int): (r: PaginatedReply<D>)
    ensures pageSize == 0 <==> r.DivideByZeroPanic?
    ensures r.Paginated? ==>
      r.status == 200 && r.success && r.data == data
      && r.pagination.total == total && r.pagination.page == page && r.pagination.pageSize == pageSize
      && r.pagination.totalPages == PaginatedTotalPages(total, pageSize)
  {
    if pageSize == 0 then DivideByZeroPanic
    else Paginated(200, true, data, Pagination(total, page, pageSize, PaginatedTotalPages(total, pageSize)))
  }

  /** With a positive page size and no rows the reply still reports page count 0; with
      one row more than a full page it reports two pages. */
  lemma PaginatedPageCounts<D>(data: D, page: int, pageSize: int)
    requires pageSize > 0
    ensures PaginatedResponse(data, 0, page, pageSize).pagination.totalPages == 0
    ensures PaginatedResponse(data, pageSize + 1, page, pageSize).pagination.totalPages == 2
  {
    RoundUpNone(pageSize);
    RoundUpOneOver(pageSize);
  }

  lemma RoundUpNone(size: int)
    requires size > 0
    ensures PaginatedTotalPages(0, size) == 0
  {
    DivOfSmall(size - 1, size);
  }

  lemma RoundUpOneOver(size: int)
    requires size > 0
    ensures PaginatedTotalPages(size + 1, size) == 2
  {
    assert size + 1 + size - 1 == 2 * size;
    DivOfDouble(size);
  }

  lemma DivOfSmall(a: int, b: int)
    requires 0 <= a < b
    ensures a / b == 0
  {
    var q, r := a / b, a % b;
    assert a == b * q + r && 0 <= r < b;
    assert b * (q - 1) == b * q - b && b * (q + 1) == b * q + b;
  }

  lemma DivOfDouble(b: int)
    requires b > 0
    ensures (2 * b) / b == 2
  {
    var q, r := (2 * b) / b, (2 * b) % b;
    assert 2 * b == b * q + r && 0 <= r < b;
    assert b * (q - 3) == b * q - 3 * b && b * (q - 1) == b * q - b;
  }
}

/** The three page counts of the server agree. */
module PageCounts {
  import GoInt
  import ApiResponse
  import DtoResponse
  import CommonErrors

  /** `(total + size - 1) / size` is the ceiling for a positive size and a total ≥ 0. */
  lemma RoundUpIsCeil(total: nat, size: int)
    requires size > 0
    ensures GoInt.IsCeil(GoInt.Div(total + size - 1, size), total, size)
  {
    var p := (total + size - 1) / size;
    var r := (total + size - 1) % size;
    assert total + size - 1 == p * size + r;
    assert (p + 1) * size == p * size + size;
    if p > 0 {
      assert (p - 1) * size == p * size - size;
    }
  }

  /** For any total ≥ 0 and size > 0, the envelope's `Pages`, the DTO's `TotalPages` and
      the gin helper's `total_pages` are the same number, the ceiling of total/size. */
  lemma ThreePageCountsAgree(total: nat, size: int)
    requires size > 0
    ensures ApiResponse.PageCount(total, size) == DtoResponse.TotalPages(total, size)
    ensures DtoResponse.TotalPages(total, size) == CommonErrors.PaginatedTotalPages(total, size)
    ensures GoInt.IsCeil(ApiResponse.PageCount(total, size), total, size)
  {
    ApiResponse.PageCountIsCeil(total, size);
    RoundUpIsCeil(total, size);
    CeilUnique(ApiResponse.PageCount(total, size), GoInt.Div(total + size - 1, size), total, size);
  }

  lemma MulCancelLess(a: int, b: int, size: int)
    requires size > 0 && a * size < b * size
    ensures a < b
  {
    assert (b - a) * size == b * size - a * size;
  }

  /** There is only one ceiling. */
  lemma CeilUnique(p: int, q: int, total: int, size: int)
    requires size > 0 && GoInt.IsCeil(p, total, size) && GoInt.IsCeil(q, total, size)
    ensures p == q
  {
    if p > 0 {
      MulCancelLess(p - 1, q, size);
    }
    if q > 0 {
      MulCancelLess(q - 1, p, size);
    }
  }

  /** With a negative total the envelope's count can be negative, which the DTO clamps. */
  lemma NegativeTotalDiffers()
    ensures ApiResponse.PageCount(-25, 10) == -2
    ensures DtoResponse.TotalPages(-25, 10) == 0
  {
  }
}

/** Mapping errors to HTTP responses (internal/server/error_handler.go). */
module ErrorHandler {
  import opened HttpStatus
  import opened GoValues

  /** The identity of a Go error value: one of the package's sentinel errors, or any other error value. */
  datatype Identity =
    | ErrBadRequest
    | ErrUnauthorized
    | ErrForbidden
    | ErrNotFound
    | ErrInternalServerError
    | Anonymous(id: nat)
  {
    predicate IsSentinel() {
      !Anonymous?
    }
  }

  /**
   * A Go error: the text `Error()` returns, and its wrap chain, the error itself
   * first and then what successive `errors.Unwrap` calls return.
   */
  datatype Error = Error(message: string, chain: seq<Identity>)

  /** The text each sentinel error was created with. */
  function SentinelMessage(id: Identity): string
    requires id.IsSentinel()
  {
    match id
    case ErrBadRequest => "不正なリクエストです"
    case ErrUnauthorized => "認証が必要です"
    case ErrForbidden => "アクセス権限がありません"
    case ErrNotFound => "リソースが見つかりません"
    case ErrInternalServerError => "サーバー内部エラーが発生しました"
  }

  /** A sentinel error value itself. */
  function Sentinel(id: Identity): (e: Error)
    requires id.IsSentinel()
    ensures Is(e, id)
  {
    Error(SentinelMessage(id), [id])
  }

  /** `fmt.Errorf("%s: %w", context, inner)`: a new anonymous error that wraps `inner`. */
  function Wrap(context: string, id: nat, inner: Error): (e: Error)
    ensures forall t :: Is(e, t) <==> t == Anonymous(id) || Is(inner, t)
  {
    Error(context + ": " + inner.message, [Anonymous(id)] + inner.chain)
  }

  /**
   * `errors.Is(err, target)`: compares each error of the chain with `target`,
   * unwrapping until a match or the end of the chain.
   */
  predicate Is(err: Error, target: Identity): (found: bool)
    ensures found <==> target in err.chain
  {
    ChainHas(err.chain, target)
  }

  /** The unwrap loop of `errors.Is`, one link at a time. */
  predicate ChainHas(chain: seq<Identity>, target: Identity): (found: bool)
    ensures found <==> exists k :: 0 <= k < |chain| && chain[k] == target
  {
    if chain == [] then false
    else if chain[0] == target then true
    else
      assert forall k :: 0 < k < |chain| ==> chain[k] == chain[1..][k - 1];
      ChainHas(chain[1..], target)
  }

  /** `determineStatusCode`: the first sentinel in the order 400, 401, 403, 404 found in the chain, else 500. */
  function DetermineStatusCode(err: Error): (code: int)
    ensures code in {StatusBadRequest, StatusUnauthorized, StatusForbidden, StatusNotFound, StatusInternalServerError}
    ensures code == StatusBadRequest <==> Is(err, ErrBadRequest)
    ensures code == StatusUnauthorized <==> !Is(err, ErrBadRequest) && Is(err, ErrUnauthorized)
    ensures code == StatusForbidden <==> !Is(err, ErrBadRequest) && !Is(err, ErrUnauthorized) && Is(err, ErrForbidden)
    ensures code == StatusNotFound <==>
      !Is(err, ErrBadRequest) && !Is(err, ErrUnauthorized) && !Is(err, ErrForbidden) && Is(err, ErrNotFound)
    ensures code == StatusInternalServerError <==>
      !Is(err, ErrBadRequest) && !Is(err, ErrUnauthorized) && !Is(err, ErrForbidden) && !Is(err, ErrNotFound)
  {
    if Is(err, ErrBadRequest) then StatusBadRequest
    else if Is(err, ErrUnauthorized) then StatusUnauthorized
    else if Is(err, ErrForbidden) then StatusForbidden
    else if Is(err, ErrNotFound) then StatusNotFound
    else StatusInternalServerError
  }

  /** Wrapping an error never changes the status it maps to. */
  lemma WrapKeepsStatus(context: string, id: nat, inner: Error)
    ensures DetermineStatusCode(Wrap(context, id, inner)) == DetermineStatusCode(inner)
  {
  }

  /** Each sentinel maps to its own status; `ErrInternalServerError` has no case of its own and reaches 500 by default. */
  lemma SentinelStatus()
    ensures DetermineStatusCode(Sentinel(ErrBadRequest)) == StatusBadRequest
    ensures DetermineStatusCode(Sentinel(ErrUnauthorized)) == StatusUnauthorized
    ensures DetermineStatusCode(Sentinel(ErrForbidden)) == StatusForbidden
    ensures DetermineStatusCode(Sentinel(ErrNotFound)) == StatusNotFound
    ensures DetermineStatusCode(Sentinel(ErrInternalServerError)) == StatusInternalServerError
  {
  }

  /** When a chain holds several sentinels, the earliest case of the switch wins, wherever each sits in the chain. */
  lemma PriorityOverChainOrder(message: string)
    ensures DetermineStatusCode(Error(message, [ErrUnauthorized, ErrBadRequest])) == StatusBadRequest
    ensures DetermineStatusCode(Error(message, [ErrNotFound, Anonymous(0), ErrForbidden])) == StatusForbidden
  {
  }

  /** The JSON error body: `status`, `message`, and `error` (omitted from the JSON when empty). */
  datatype ErrorResponse = ErrorResponse(status: int, message: string, error: string)

  /** The generic message a 500 response shows in place of the error's own text. */
  const InternalErrorMessage: string := "サーバー内部エラーが発生しました"

  /**
   * `HTTPErrorHandler`, without the write to the ResponseWriter: the status it
   * writes and the body it encodes.
   */
  method HTTPErrorHandler(err: Error, statusCode: int) returns (written: int, response: ErrorResponse)
    ensures written == response.status
    ensures statusCode != 0 ==> response.status == statusCode
    ensures statusCode == 0 ==> response.status == DetermineStatusCode(err)
    ensures response.status == StatusInternalServerError ==>
      response.message == InternalErrorMessage && response.error == err.message
    ensures response.status != StatusInternalServerError ==>
      response.message == err.message && response.error == ""
  {
    var status := statusCode;
    if status == 0 {
      status := DetermineStatusCode(err);
    }
    response := ErrorResponse(status, err.message, "");
    if status == StatusInternalServerError {
      response := response.(message := InternalErrorMessage, error := err.message);
    }
    written := status;
  }

  /** The generic 500 message is the text of `ErrInternalServerError`. */
  lemma InternalMessageIsSentinelText()
    ensures InternalErrorMessage == SentinelMessage(ErrInternalServerError)
  {
  }

  /**
   * `ResponseJSON`, without the encoding: the status it writes (0 becomes 200) and
   * the body it encodes, which is `data` unchanged.
   */
  method ResponseJSON<T>(data: T, statusCode: int) returns (written: int, body: T)
    ensures written != 0
    ensures statusCode != 0 ==> written == statusCode
    ensures statusCode == 0 ==> written == StatusOK
    ensures body == data
  {
    var status := statusCode;
    if status == 0 {
      status := StatusOK;
    }
    written, body := status, data;
  }

  /** The JSON success body: `status`, `message` and `data` (the last two omitted from the JSON when empty). */
  datatype SuccessResponse = SuccessResponse(status: int, message: string, data: Value)

  /**
   * `RespondWithSuccess`: defaults the status to 200, wraps message and data, and
   * hands the body to `ResponseJSON` with the defaulted status.
   */
  method RespondWithSuccess(data: Value, message: string, statusCode: int) returns (written: int, response: SuccessResponse)
    ensures written == response.status
    ensures written != 0
    ensures statusCode != 0 ==> written == statusCode
    ensures statusCode == 0 ==> written == StatusOK
    ensures response.message == message && response.data == data
  {
    var status := statusCode;
    if status == 0 {
      status := StatusOK;
    }
    var successResponse := SuccessResponse(status, message, data);
    written, response := ResponseJSON(successResponse, status);
  }
}

# Request-boundary core of the task-management authentication service

This project models, in Dafny, the sequential logic that sits at the HTTP boundary
of the service's Go server package: the request-body validators, the mapping from
errors to HTTP error responses, the success-response helpers, and the loading of
the server configuration from environment variables. Each operation is a Dafny
function or method whose contract states what the Go code does, with lemmas for
the properties that relate several calls.

Modules and files:

- `validation.dfy` (`Validation`) — `ValidateRequiredFields` (a method with a loop,
  proved against the specification function `RequiredFieldsError`), `isEmptyValue`
  as written and as intended, `ValidateEmail`, `ValidatePassword`.
- `error_handler.dfy` (`ErrorHandler`) — the sentinel errors, `errors.Is` over a wrap
  chain, `determineStatusCode`, and the response-building parts of `HTTPErrorHandler`,
  `ResponseJSON` and `RespondWithSuccess`.
- `config.dfy` (`ServerConfig`) — `getEnv`, `getEnvAsInt`, `NewConfig`, `GetServerAddr`,
  with the environment passed as a map.
- `strconv.dfy` (`Strconv`) — Go's `strconv.Atoi` and `strconv.Itoa` for a 64-bit `int`,
  and their round trip.
- `gostrings.dfy` (`GoStrings`) — `strings.Contains` and Go's `len` of a string
  (UTF-8 byte count).
- `values.dfy` (`GoValues`) — the dynamic values of a decoded request body.
- `http_status.dfy` (`HttpStatus`), `wrappers.dfy` (`Wrappers`) — status constants, Option/Result.

Modelling decisions:

- A Go `error` is its `Error()` text plus its wrap chain: the error itself, then
  each error that `errors.Unwrap` reaches. `errors.Is(err, target)` holds when
  `target` occurs in the chain. `Wrap` models `fmt.Errorf("%s: %w", ...)`.
- Go strings are byte strings. The model uses Dafny strings and measures them
  the way Go's `len` does, by their UTF-8 byte count. `@` and `.` are ASCII, so
  searching for them by character or by byte gives the same answer.
- Go's `int` is 64 bits wide (`Strconv.GoInt`). `strconv.Atoi` accepts exactly an
  optional `+` or `-` followed by one or more decimal digits whose value is an `int`.
  A well-formed number outside the `int` range is `ErrRange`. A malformed string is
  `ErrSyntax`, unless the digits before its first non-digit already exceed the
  64-bit unsigned range: `ParseUint` then stops early with `ErrRange`.
- Environment lookups read an explicit `map<string, string>`. An unset variable
  reads as `""`, as with `os.Getenv`.
- The validation error for a password says "8 characters" but the code counts bytes.
  `Validation.PasswordCountsBytes` shows that a five-character Japanese password
  (15 bytes) passes, while `Validation.PasswordAsciiLimit` shows that a seven-character ASCII one fails. The model follows the code.
- In Go, a type-switch case that lists several types leaves the variable typed
  `interface{}`. So in `isEmptyValue` the tests `v == 0` for the integer and float
  cases compare against a boxed `int` zero (see "## Findings"). The model keeps
  this as-written behaviour in `Validation.IsEmptyValueAsWritten` and the intended
  test in `Validation.IsEmptyValue`. The required-field validation takes a
  `Validation.Reading` (`AsWritten` or `Intended`) that chooses between them, and
  `Validation.ReadingsDiffer` says exactly when the two results differ.
- `determineStatusCode` has no case besides the four sentinels: every other error,
  including `ErrInternalServerError`, becomes 500.

## Model

| member | source | states |
|---|---|---|
| `Validation.IsEmptyValueAsWritten` | internal/server/validation.go:68-89 | `isEmptyValue` as the Go compiles it: among numbers only a plain `int` zero is empty, no float is; every other kind as intended |
| `Validation.ZeroNumbersNotEmptyAsWritten` | internal/server/validation.go:76-79 | as written, a float zero (a JSON `0`) and an `int8` zero are not empty, though the intended test says they are |
| `Validation.IsEmptyValue` | internal/server/validation.go:68-89 | as intended: a value is empty exactly when it is the zero value of one of the kinds the type switch lists (nil, string, each signed integer type, float, bool, `[]interface{}`, `map[string]interface{}`) |
| `Validation.EmptinessEdgeCases` | internal/server/validation.go:73-88 | as intended: unsigned zero and unknown types are not empty; non-empty list and map are not empty; float zero and an `int64` zero are empty and -1 is not |
| `Validation.ReadingsOnValues` | internal/server/validation.go:76-79 | whatever is empty as written is empty as intended; they disagree exactly on sized-integer zeros and float zeros |
| `Validation.ValidateRequiredFields` | internal/server/validation.go:57-65 | under either reading of `isEmptyValue`, the loop returns no error iff every listed field is present and non-empty; otherwise the message `フィールド '<field>' は必須です` for the first offending field in list order |
| `Validation.ReadingsDiffer` | internal/server/validation.go:57-65 | the as-written and intended validations differ exactly when the first field failing the intended test holds a sized-integer zero or a float zero |
| `Validation.JsonZeroPassesAsWritten` | internal/server/validation.go:60 | a body `{"n": 0}` (decoded as `float64`) passes the required field `n` as written and fails it as intended |
| `Validation.RequiredFieldsOkIff` | internal/server/validation.go:57-65 | success iff every listed field is present and `isEmptyValue` is false for it; an empty list always succeeds |
| `Validation.RequiredFieldsNamesFirst` | internal/server/validation.go:58-62 | a failure names the first unsatisfied field, every earlier field being satisfied |
| `Validation.RequiredFieldsAppend` | internal/server/validation.go:58-64 | checking `fs + gs` gives the failure of `fs` if it has one, else the result for `gs` |
| `Validation.RequiredFieldsOnlyListedKeys` | internal/server/validation.go:57-64 | two maps that agree on the listed keys give the same result |
| `Validation.RequiredFieldsUnlistedKey` | internal/server/validation.go:57-64 | adding, replacing or deleting an unlisted key changes nothing; the empty list passes |
| `Validation.ValidateEmail` | internal/server/validation.go:92-98 | accepted iff the string contains `@` and contains `.`; otherwise the fixed format message |
| `Validation.EmailAccepted` | internal/server/validation.go:94-97 | `.@` and `alice@example.com` pass: order and position do not matter |
| `Validation.EmailRejected` | internal/server/validation.go:94-95 | strings lacking `@` or lacking `.`, and the empty string, fail with the format message |
| `Validation.ValidatePassword` | internal/server/validation.go:101-107 | accepted iff the UTF-8 byte length is at least 8; any password of 8 or more characters passes; otherwise the fixed message |
| `Validation.PasswordAsciiLimit` | internal/server/validation.go:103-104 | the seven-character `Secret1` fails and the eight-character `Secret12` passes |
| `Validation.PasswordCountsBytes` | internal/server/validation.go:103-104 | the five-character `パスワード` passes because it is 15 bytes long |
| `GoStrings.Contains` | internal/server/validation.go:94 | `strings.Contains`: the empty string and the whole string are always found, and nothing longer than the text is |
| `GoStrings.ContainsChar` | internal/server/validation.go:94 | `strings.Contains(s, c)` for a one-character `c` is membership of `c` in `s` |
| `GoStrings.ByteLength` | internal/server/validation.go:103 | Go's `len` of a string is its UTF-8 byte count, between its character count and four times that |
| `GoStrings.ByteLengthAscii` | internal/server/validation.go:103 | on ASCII text `len` equals the number of characters |
| `ErrorHandler.Sentinel` | internal/server/error_handler.go:18-24 | a sentinel error is found by `errors.Is` on itself |
| `ErrorHandler.Wrap` | internal/server/error_handler.go:56-63 | `errors.Is` on a wrapping error holds for the wrapper itself and for everything the wrapped error matches, and nothing else |
| `ErrorHandler.Is` | internal/server/error_handler.go:57-63 | `errors.Is` walks the wrap chain and finds `target` iff it occurs in the chain |
| `ErrorHandler.DetermineStatusCode` | internal/server/error_handler.go:55-68 | 400, 401, 403, 404 when the chain contains `ErrBadRequest`, `ErrUnauthorized`, `ErrForbidden`, `ErrNotFound`, the earliest case winning; 500 exactly when it contains none of them |
| `ErrorHandler.WrapKeepsStatus` | internal/server/error_handler.go:55-68 | wrapping an error never changes its status code |
| `ErrorHandler.SentinelStatus` | internal/server/error_handler.go:55-68 | each sentinel maps to its own code; `ErrInternalServerError` reaches 500 through the default case |
| `ErrorHandler.PriorityOverChainOrder` | internal/server/error_handler.go:56-64 | with several sentinels in a chain the switch order decides, not the chain order (BadRequest beats Unauthorized, Forbidden beats NotFound) |
| `ErrorHandler.HTTPErrorHandler` | internal/server/error_handler.go:27-44 | a non-zero status is kept, 0 is derived by `determineStatusCode`; `Status` equals the written status; at 500 `Message` is the generic text and `Error` the original message, otherwise `Message` is the original and `Error` empty |
| `ErrorHandler.InternalMessageIsSentinelText` | internal/server/error_handler.go:42 | the generic 500 message is the text of `ErrInternalServerError` |
| `ErrorHandler.ResponseJSON` | internal/server/error_handler.go:71-84 | status 0 becomes 200, every other status is kept; the body is the data unchanged |
| `ErrorHandler.RespondWithSuccess` | internal/server/error_handler.go:94-109 | the written status is the defaulted code and equals the body's `Status`; `Message` and `Data` are the inputs unchanged |
| `Strconv.Itoa` | internal/server/config.go:66 | the rendering starts with `-` iff the number is negative, the rest being decimal digits without a leading zero (only `0` itself starts with `0`) |
| `Strconv.Atoi` | internal/server/config.go:67 | succeeds iff the text is an optional sign then digits whose value is an `int`, returning that value; a well-formed out-of-range number is `ErrRange` |
| `Strconv.ScanPrefix` | internal/server/config.go:67 | `ParseUint`'s digit loop: after a digit prefix it either has stopped with `ErrRange` (the prefix overflows 64 bits) or continues with the prefix's value |
| `Strconv.AtoiRangeBeforeSyntax` | internal/server/config.go:67-69 | digits worth more than 2^64 - 1 give `ErrRange` whatever follows them, even a non-digit, with or without `-` |
| `Strconv.AtoiLongDigitsRange` | internal/server/config.go:67-69 | twenty-one or more significant digits give `ErrRange` whatever follows them |
| `Strconv.AtoiEarlyRangeExample` | internal/server/config.go:67-69 | the decimal text of 2^64 followed by `x` is `ErrRange`, not `ErrSyntax` |
| `Strconv.ItoaExample` | internal/server/config.go:36 | `Itoa(8080)` is `8080` |
| `Strconv.AtoiItoa` | internal/server/config.go:66-67 | `Atoi(Itoa(d)) == d` for every `int`, so `getEnvAsInt`'s default path returns the default |
| `Strconv.AtoiSyntaxErrors` | internal/server/config.go:67-69 | the empty string, a lone sign, a leading space and an underscore are syntax errors |
| `Strconv.AtoiAcceptsPlusAndLeadingZeros` | internal/server/config.go:67 | `+007` parses as 7 |
| `Strconv.AtoiRangeError` | internal/server/config.go:67-69 | twenty or more significant digits, with or without a sign, are a range error |
| `ServerConfig.Getenv` | internal/server/config.go:76 | `os.Getenv`: the stored value, or the empty string when unset |
| `ServerConfig.GetEnv` | internal/server/config.go:75-81 | the default when the variable is unset or empty, the stored value otherwise; never empty when the default is not |
| `ServerConfig.GetEnvAsInt` | internal/server/config.go:65-72 | the parsed value when the variable holds a valid `Atoi` string, the default when it is unset or does not parse |
| `ServerConfig.Config.GetServerAddr` | internal/server/config.go:60-62 | exactly `:` followed by `Itoa(port)`, the canonical decimal rendering `%d` prints, which parses back to the port |
| `ServerConfig.NewConfig` | internal/server/config.go:34-57 | `AllowedOrigins` always has exactly one element; every string field is non-empty |
| `ServerConfig.NewConfigDefaults` | internal/server/config.go:34-57 | with none of its variables set: port 8080, timeouts 15/15/60, `localhost:3306`, `root`/`password`, `task_manager`, `your-secret-key`, JWT hours 24/168, origins `["*"]` |
| `ServerConfig.DefaultServerAddr` | internal/server/config.go:60-62 | with none of its variables set the listen address is `:8080` |
| `ServerConfig.NewConfigReadsOnlyItsKeys` | internal/server/config.go:34-57 | the configuration depends only on what `os.Getenv` returns for its thirteen variables |
| `ServerConfig.NewConfigPortRoundTrip` | internal/server/config.go:36 | a port written by `Itoa` is read back exactly and rendered by `GetServerAddr` |
| `ServerConfig.NewConfigBadPortFallsBack` | internal/server/config.go:36 | a port value `Atoi` rejects (`80a`) yields the default 8080 |

## Left out

- `DecodeJSON` (internal/server/validation.go:12-54): it depends on how `encoding/json` decodes and on reading the request body.
- Floating-point values in `isEmptyValue`: a float is reduced to whether it equals zero, so a float compares equal to zero for both signed zeros and never for NaN.
- The range of each sized integer type is not enforced on `GoValues.Value`. Only the comparison with zero matters here.
- Byte strings that are not valid UTF-8 cannot be written as Dafny strings. Such text does not reach the validators through JSON decoding anyway.
- The JSON encoding of the responses, the `Content-Type` header, the `WriteHeader` call, and `log.Printf`. These are side effects on the `ResponseWriter` and the log. The model returns the status and the body that would be written.
- `ResponseJSON`'s encoding-failure path calls `HTTPErrorHandler` with 500 after the header is already written. Encoding is not modelled, so this path is not either.
- Go's `WriteHeader` panics on codes outside 100-999. That happens in the write, which is not modelled.
- `HTTPErrorHandler` with a nil error panics in Go. The model's `Error` type has no nil value.
- `errors.Is` through multi-error trees (`Unwrap() []error`) and through custom `Is` methods is not modelled. The wrap chain is a list.
- `os.Getenv` is replaced by an explicit environment map passed as a parameter.
- A 32-bit `int` platform is not modelled. `int` is 64 bits wide.
- Routing, server start and shutdown, signal handling and module wiring (internal/server/router.go, server.go, application.go, module_container.go, auth-service/api/router.go) are framework plumbing and concurrency, so they are not modelled.
- The credential lifecycle (token codec, password hashing, revocation, refresh rotation) exists in the source only as interface signatures (internal/modules/auth/usecase/*/repository.go). There is no behaviour in those files to model.

## Findings

| source | as written | input that shows it | evidently intended | confidence | as-written member | corrected member |
|---|---|---|---|---|---|---|
| internal/server/validation.go:76-79 | `case int, int8, int16, int32, int64: return v == 0` and `case float32, float64: return v == 0`. Because each case lists several types, `v` is an `interface{}` and is compared with the boxed `int` zero | `float64(0)`, which is how a JSON `0` decodes, and `int8(0)`: both are reported not empty | every listed integer type and both float types are empty at zero | high (Go type-switch rule); not executed | `Validation.IsEmptyValueAsWritten`, `Validation.ZeroNumbersNotEmptyAsWritten`, `Validation.JsonZeroPassesAsWritten` | `Validation.IsEmptyValue` (with `Validation.ReadingsDiffer`) |

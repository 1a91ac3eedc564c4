# ss-infra-go access log and request helpers, in Dafny

This project models the HTTP access-log engine of ss-infra-go and the small
pieces of request logic around it. Each part is proved correct against a
specification.

- **Pattern compiler** (`buildTemplate`). An Apache-style pattern is
  rewritten into template text in two passes:
  - the fixed `%X` directives are replaced in one left-to-right scan;
  - `%{F}t`, `%{H}i` and `%{H}o` are rewritten by the regular-expression
    passes.

  The result is then split into literal texts and `${tag}` tags, as the
  fasttemplate library does.
- **Line renderer** (`record`). It is the tag switch that turns every tag
  into text, followed by one newline. Each line goes to the sink in a
  single write.
- **Request snapshot** (`createLogItem`) and **logging decision**
  (`AccessLog`, `ignoreRequest`). Also the logger's settings (`Enabled`,
  `Disabled`, `Status`, `SetSlowRequestThreshold`) and its construction
  (`NewAccessLogger`).
- **Response observers**:
  - `responseWriterImpl` counts the bytes written and remembers the first
    status and when it was sent;
  - `ginResponseWriter` remembers when the header first went out. It is
    the writer the access log wraps around gin's writer.
- **API response codes**. `buildAPICode` writes the status and a
  two-digit sub-code side by side. `Meta.StatusCode`, `SubCode` and
  `IsError` read them back. The success and error helpers build the
  bodies.
- **Code table**. The code-to-description table, `HttpCodeDescription`
  and `RegisterCustomCode`.
- **Configuration**. The server configuration (`DefaultConfig`,
  `Validate`, `init`) and the MySQL configuration (`init`, `validate`).
- **Devops status**. The service status the devops handlers toggle and
  report.
- **Context helpers**. They store the trace id, the Cloudflare ray id, the
  log fields and the debug switch in a request context.

Go semantics are written out explicitly:
- Integer `/` and `%` truncate toward zero (`GoInt.Quot`, `GoInt.Rem`).
- `strconv.Atoi` is `strconv.ParseInt(s, 10, 0)` (`GoInt.Atoi`):
  - it reads the digits from the left;
  - it reports a range error, clamped by the sign, as soon as the value
    exceeds 64 bits, whatever follows;
  - a non-digit reached before that is a syntax error.
- Times are integer nanoseconds, with 0 standing for the zero `time.Time`.
- A nil pointer or nil context is `None`.

The objects the source updates in place are classes whose methods are
proved against pure step functions:
- `AccessLogger`;
- `responseWriterImpl` and `ginResponseWriter`;
- the code registry;
- both configurations;
- the devops status.

Properties that relate several calls are lemmas about those functions.

Each module lives in one file:

| file | module |
|---|---|
| `goint.dfy` | `GoInt` |
| `text.dfy` | `Text` |
| `fasttemplate.dfy` | `FastTemplate` |
| `http_header.dfy` | `HttpHeader` |
| `pattern.dfy` | `Pattern` |
| `access_log_record.dfy` | `AccessLogRecord` |
| `access_log.dfy` | `AccessLog` |
| `response_writer.dfy` | `ResponseWriter` |
| `api_response.dfy` | `ApiResponse` |
| `response_mapping.dfy` | `ResponseMapping` |
| `server_config.dfy` | `ServerConfig` |
| `mysql_config.dfy` | `MysqlConfig` |
| `devops.dfy` | `Devops` |
| `go_context.dfy` | `GoContext` |
| `tracing_context.dfy` | `TracingContext` |
| `log_context.dfy` | `LogContext` |
| `consts.dfy` | `Consts` |
| `wrappers.dfy` | `Wrappers` |

## Model

| member | source | states |
|---|---|---|
| GoInt.Quot | api/response/response.go:141-143 | Go's `/` for a positive divisor: the remainder `a - q*b` has the sign of `a` and is smaller than `b` in size, so the quotient truncates toward zero |
| GoInt.Rem | api/response/response.go:146-148 | Go's `%`: `a == Quot(a,b)*b + r`, with `r` taking the sign of `a` |
| GoInt.Atoi | api/response/response.go:15 | `strconv.Atoi`: a value is always an int64; a range error carries the clamped bound; empty text is a syntax error |
| GoInt.ApplySign | api/response/response.go:15 | The sign step of `ParseInt`: syntax errors are kept, and only they; a range error or an out-of-range magnitude is clamped to the bound of the sign |
| GoInt.ParseUint | api/response/response.go:15 | `ParseUint(s, 10, 64)`: a value fits in 64 bits; a range error carries the largest uint64 |
| GoInt.ParseUintDigits | api/response/response.go:15 | Digits that fit in 64 bits parse to their value |
| GoInt.ParseUintJunk | api/server/handlers/devops.go:32 | Digits that fit in 64 bits followed by a non-digit are a syntax error |
| GoInt.ParseUintOverflow | api/server/handlers/devops.go:32 | Digits beyond 64 bits are a range error whatever follows them |
| GoInt.AtoiSigned | api/response/response.go:15 | After an optional sign, `Atoi` hands the rest to `ParseUint` and applies the sign |
| GoInt.AtoiTrailingJunk | api/response/response.go:15 | A sign, digits that fit in 64 bits, then a non-digit: a syntax error |
| GoInt.AtoiOverflowFirst | api/server/handlers/devops.go:32 | A sign and digits beyond 64 bits: a range error clamped by the sign, whatever follows |
| GoInt.AtoiFormatInt | api/server/middleware/access_log.go:157-159 | Reading back `strconv.Itoa(x)` gives `x` for every int64 `x` |
| GoInt.FormatInt | api/server/middleware/access_log.go:148 | `strconv.FormatInt` ends in a digit and starts with `-` exactly for negative numbers |
| Text.Lower | api/server/middleware/access_log.go:141 | `strings.ToLower` on ASCII: same length, each character lowered |
| Text.Index | api/server/middleware/access_log.go:139 | `strings.Index` for one character: -1 or a position holding that character |
| Text.IndexFirst | api/server/middleware/access_log.go:221 | No occurrence lies before the reported position, and none at all when -1 is reported |
| FastTemplate.Parse | api/server/middleware/access_log.go:126 | The split of the template text at `${` and the next `}`; a success has one more text than tags |
| FastTemplate.ParseWellFormed | api/server/middleware/access_log.go:126 | A successful split leaves no `${` in a text and no `}` in a tag |
| FastTemplate.ParseUnparses | api/server/middleware/access_log.go:126 | Putting a successful split back together gives the original text |
| FastTemplate.ParseUnparse | api/server/middleware/access_log.go:126 | Splitting the text of a well-formed template gives that template back |
| FastTemplate.ParseFailsIffUnclosed | api/server/middleware/access_log.go:126 | Splitting fails exactly when some `${` has no `}` after it |
| FastTemplate.ExecuteEchoIsUnparse | api/server/middleware/access_log.go:136 | Executing with a tag function that writes `${tag}` back reproduces the template text |
| HttpHeader.CanonicalKey | api/server/middleware/access_log.go:216 | The canonical header key has the same length as the key |
| HttpHeader.Set | api/server/middleware/access_log.go:216 | `Header.Set` adds exactly the canonical form of the key to the header's keys |
| HttpHeader.GetAfterSet | api/server/middleware/access_log.go:216-217 | `Get` after `Set` of the same key returns the value set |
| HttpHeader.GetOtherAfterSet | api/server/middleware/access_log.go:216-217 | `Set` leaves `Get` of a key with a different canonical form unchanged |
| HttpHeader.CanonIdempotent | api/server/middleware/access_log.go:216 | Canonicalising twice is canonicalising once |
| HttpHeader.CanonicalKeyIdempotent | api/server/middleware/access_log.go:216 | The canonical key of a canonical key is itself |
| HttpHeader.CanonIgnoresCase | api/server/middleware/access_log.go:187 | Keys equal up to case have the same canonical form |
| HttpHeader.CanonKeepsToken | api/server/middleware/access_log.go:187 | Canonicalising a token yields a token |
| HttpHeader.LowerKeepsToken | api/server/middleware/access_log.go:121 | Lower-casing a token yields a token |
| HttpHeader.GetIgnoresCase | api/server/middleware/access_log.go:187 | `Header.Get` of a token key and of its lower-cased form return the same value |
| Pattern.DirectiveShape | api/server/middleware/access_log.go:101-116 | Every replacement text starts with `$` and holds no `%` |
| Pattern.ReplaceDirectiveAfter | api/server/middleware/access_log.go:101-116 | The replacer copies text without `%`, puts a directive's placeholder in its place, and goes on after the directive |
| Pattern.ReplaceWithoutDirective | api/server/middleware/access_log.go:101-116 | Text holding no directive passes the replacer unchanged |
| Pattern.ReplaceFirst | api/server/middleware/access_log.go:101-116 | The output starts with `$` exactly when the input starts with a directive, otherwise with the input's first character |
| Pattern.ReplaceLeavesNoDirective | api/server/middleware/access_log.go:101-116 | Replaced text is not rescanned: the output holds no directive |
| Pattern.ReplaceIdempotent | api/server/middleware/access_log.go:101-116 | Running the replacer on its own output changes nothing |
| Pattern.ReplaceAppend | api/server/middleware/access_log.go:101-116 | The replacer works piece by piece across a boundary not preceded by `%` |
| Pattern.MatchAt | api/server/middleware/access_log.go:118 | A match of `%({([^}]+)})k` at the front starts with `%{`, ends with `}` and `k`, and has a non-empty name |
| Pattern.ExpandOne | api/server/middleware/access_log.go:118-119 | `%{F}t` becomes `${ReceivedAt\|F}` with F unchanged, and the rewrite continues after it |
| Pattern.ExpandWithoutPercent | api/server/middleware/access_log.go:118-125 | Text without `%` passes the regular-expression rewrites unchanged |
| Pattern.LowerMatchesSimilar | api/server/middleware/access_log.go:121 | Lower-casing whole matches changes only upper-case letters inside them, so no match moves |
| Pattern.LowerThenExpand | api/server/middleware/access_log.go:120-125 | Lower-casing every `%{H}k` match and then expanding it turns each into `${Family\|h}` with h the lower-cased H |
| Pattern.BuildTemplateTextHeaders | api/server/middleware/access_log.go:118-125 | The header passes (lower-case every `%{H}i`, expand it, the same for `%{H}o`) equal the single lower-then-expand rewrite, so header names reach their tags lower-cased |
| Pattern.OtherItemUnchanged | api/server/middleware/access_log.go:118-125 | A `%{F}k` item is left alone by the rewrite of another family |
| Pattern.BuildWithoutPercent | api/server/middleware/access_log.go:100-126 | A pattern without `%` reaches the splitter unchanged |
| Pattern.BuildAfterDirectives | api/server/middleware/access_log.go:101-125 | When no `%` is left after the replacer, the regular-expression passes change nothing |
| Pattern.CompileFailsIffUnclosed | api/server/middleware/access_log.go:126 | Compilation fails exactly when the rewritten text leaves a `${` unclosed |
| Pattern.CompileUnclosedPlaceholder | api/server/middleware/access_log.go:100-126 | The pattern `%s${` is refused |
| Pattern.CompileRequestHeader | api/server/middleware/access_log.go:120-126 | Literal text followed by `%{H}i` compiles to that text and the tag `RequestHeader\|h`, h lower-cased |
| AccessLogRecord.BytesSentDashTag | api/server/middleware/access_log.go:153-157 | `BytesSent\|-` renders `-` exactly for zero bytes, otherwise decimal text that reads back as the count |
| AccessLogRecord.DecimalTags | api/server/middleware/access_log.go:147-171 | `BytesSent\|0`, `StatusCode` and `Content-Length` render decimal text that reads back as the value, `-1` included |
| AccessLogRecord.LatencyTag | api/server/middleware/access_log.go:172-173 | `Latency\|-` never renders `-`; it renders the latency's milliseconds truncated toward zero |
| AccessLogRecord.FirstByteTimeTag | api/server/middleware/access_log.go:176-180 | `FirstByteTime\|-` renders `-` exactly when no first byte was recorded, otherwise the truncated milliseconds since receipt |
| AccessLogRecord.LoweredIsNotWritten | api/server/middleware/access_log.go:141-192 | A lower-cased prefix never equals a label that starts with an upper-case letter |
| AccessLogRecord.UnlistedTagRendersNothing | api/server/middleware/access_log.go:138-201 | As written, every tag outside the switch's named cases renders nothing, the `ReceivedAt`, `RequestHeader` and `ResponseHeader` tags included |
| AccessLogRecord.FamilyIndex | api/server/middleware/access_log.go:139 | In `family\|arg` the first `\|` is the one after the family |
| AccessLogRecord.DynamicTag | api/server/middleware/access_log.go:138-199 | A `family\|arg` tag outside the named cases reaches the default case with the family lower-cased |
| AccessLogRecord.FamilyTagsNotFixed | api/server/middleware/access_log.go:144-180 | The tags built from `%{…}t`, `%{…}i` and `%{…}o` match no named case |
| AccessLogRecord.IntendedAgreesOnFixedTags | api/server/middleware/access_log.go:144-180 | The corrected renderer agrees with the written one on every named case |
| AccessLogRecord.IntendedRequestHeaderTag | api/server/middleware/access_log.go:186-191 | With the corrected comparison, a request-header tag renders the header's value, or `-` when it is empty |
| AccessLogRecord.IntendedResponseHeaderTag | api/server/middleware/access_log.go:192-197 | With the corrected comparison, a response-header tag renders the header's value, or `-` when it is empty |
| AccessLogRecord.IntendedTimeTag | api/server/middleware/access_log.go:184-185 | With the corrected comparison, a time tag renders the receive time in the tag's layout |
| AccessLogRecord.LiteralPatternLine | api/server/middleware/access_log.go:203-208 | A pattern without `%` or `${` compiles to itself, and each line it logs is that text and one newline |
| AccessLogRecord.RequestHeaderLine | api/server/middleware/access_log.go:120-208 | As written, a pattern ending in `%{H}i` logs only the text before it and the newline |
| AccessLogRecord.RequestHeaderLineIntended | api/server/middleware/access_log.go:186-208 | With the corrected comparison, the same line carries the header's value, looked up regardless of case, or `-` |
| AccessLog.RemoteHostSpec | api/server/middleware/access_log.go:221-223 | The remote host holds no `:`; it and a `:` start the address, or it is "" for an address without `:` |
| AccessLog.CreateLogItemSnapshot | api/server/middleware/access_log.go:213-233 | The snapshot reads the host from the overwritten `Host` header and the trace id from the incoming header. Size, status, first-byte time and response header come from the writer. Only the `Host` entry of the request changes |
| AccessLog.RecordedIff | api/server/middleware/access_log.go:235-258 | A request is logged iff it is not `OPTIONS` and the logger is enabled or a positive threshold is reached (inclusive); logging implies wrapping |
| AccessLog.WriterLeftWrapped | api/server/middleware/access_log.go:256-261 | As written, the writer stays swapped exactly for non-`OPTIONS` requests that a disabled logger with a positive threshold wraps and then drops |
| AccessLog.FlowIntendedRestores | api/server/middleware/access_log.go:239-262 | The corrected flow logs the same requests and restores the writer whenever it was wrapped |
| AccessLog.AccessLogger.constructor | api/server/middleware/access_log.go:62-79 | A new logger is enabled, has the 1500 ms threshold, holds the compiled pattern and the local IP, and has written nothing |
| AccessLog.AccessLogger.Disabled | api/server/middleware/access_log.go:81-94 | Clears `enabled`; `Status()` then reports "disabled" |
| AccessLog.AccessLogger.Enabled | api/server/middleware/access_log.go:85-94 | Sets `enabled`; `Status()` then reports "enabled" |
| AccessLog.AccessLogger.SetSlowRequestThreshold | api/server/middleware/access_log.go:96-98 | Stores the new threshold and nothing else |
| AccessLog.AccessLogger.Record | api/server/middleware/access_log.go:130-211 | Appends exactly one write to the sink: the executed template followed by one newline |
| AccessLog.AccessLogger.Handle | api/server/middleware/access_log.go:239-263 | Follows `Flow`. A logged request appends its line and returns the request with the `Host` header set; any other request leaves the sink and the request alone |
| AccessLog.NewAccessLogger | api/server/middleware/access_log.go:62-79 | A compile error is reported first, then a local-IP error. Otherwise the result is a fresh logger that is enabled, has the default threshold and holds the compiled pattern |
| ResponseWriter.FreshReports | api/server/middleware/response_writter.go:40-51 | A fresh observer satisfies the invariant and reports status 200, size 0 and no first-byte time |
| ResponseWriter.StepKeepsInv | api/server/middleware/response_writter.go:47-101 | Every call keeps the invariant: size at least -1, and status 200 while no first-byte time is set |
| ResponseWriter.RunKeepsInv | api/server/middleware/response_writter.go:47-101 | Any sequence of calls keeps the invariant |
| ResponseWriter.SizeNonNegative | api/server/middleware/response_writter.go:78-83 | `Size()` is never negative after any sequence of calls |
| ResponseWriter.WriteHeaderEffect | api/server/middleware/response_writter.go:54-62 | `WriteHeader` forwards exactly the positive codes other than the current status. It records the status only while no first-byte time is set, and then records the time. The size is untouched |
| ResponseWriter.StepKeepsFirstByteTime | api/server/middleware/response_writter.go:57-60 | A set first-byte time survives any call |
| ResponseWriter.FirstByteTimeStable | api/server/middleware/response_writter.go:57-60 | A set first-byte time survives any sequence of calls |
| ResponseWriter.WriteForwardsOnlyBody | api/server/middleware/response_writter.go:65-72 | In a reachable state, `Write` only forwards the body and adds the accepted count; its `WriteHeader(200)` does nothing |
| ResponseWriter.WritesLeaveFirstByteTimeUnset | api/server/middleware/response_writter.go:65-68 | As written, without a `WriteHeader` of a status other than 200, no first-byte time is ever recorded, however much is written |
| ResponseWriter.FreshWriteNoFirstByteTime | api/server/middleware/response_writter.go:65-68 | As written, a write on a fresh observer records no first-byte time |
| ResponseWriter.SizeOffByOne | api/server/middleware/response_writter_test.go:19-25 | As written, `WriteHeader(404)` and then 13 bytes give status 404, the header's time and `Size()` 12 |
| ResponseWriter.StepIntendedCounts | api/server/middleware/response_writter.go:65-72 | With the corrected `Write`, one call adds exactly the accepted bytes to `Size()` |
| ResponseWriter.RunIntendedCounts | api/server/middleware/response_writter.go:65-83 | With the corrected `Write`, `Size()` grows by exactly the bytes accepted over any sequence of calls without a reset |
| ResponseWriter.WriteIntendedRecordsFirstByte | api/server/middleware/response_writter.go:65-68 | With the corrected `Write`, the first write records the first-byte time and later ones keep it |
| ResponseWriter.ResponseWriterImpl.constructor | api/server/middleware/response_writter.go:40-44 | `NewResponseWriter` yields the fresh state |
| ResponseWriter.ResponseWriterImpl.Reset | api/server/middleware/response_writter.go:47-51 | Size and status go back to their defaults; the first-byte time stays |
| ResponseWriter.ResponseWriterImpl.WriteHeader | api/server/middleware/response_writter.go:54-62 | The fields change as `WriteHeaderStep` says, and the invariant holds |
| ResponseWriter.ResponseWriterImpl.Write | api/server/middleware/response_writter.go:65-72 | Returns the accepted count. The fields change as `WriteStep` says, and the invariant holds |
| ResponseWriter.ResponseWriterImpl.Size | api/server/middleware/response_writter.go:78-83 | 0 for the sentinel and the counter otherwise; never negative |
| ResponseWriter.ResponseWriterImpl.Hijack | api/server/middleware/response_writter.go:91-96 | A negative size becomes 0; status and first-byte time are untouched |
| ResponseWriter.ResponseWriterImpl.Flush | api/server/middleware/response_writter.go:99-101 | Only forwards the flush |
| ResponseWriter.GinResponseWriter.constructor | api/server/middleware/response_writter.go:131-133 | No first-byte time and no calls yet |
| ResponseWriter.GinResponseWriter.WriteHeaderNow | api/server/middleware/response_writter.go:112-117 | Delegates, then sets the first-byte time only if none was set |
| ResponseWriter.GinResponseWriter.Write | api/server/middleware/response_writter.go:119-122 | Sends the header before the body, so a first-byte time is set afterwards, and an earlier one is kept |
| ResponseWriter.GinResponseWriter.WriteString | api/server/middleware/response_writter.go:125-128 | Same as `Write`, for a string |
| ApiResponse.Pad2Digits | api/response/response.go:15 | `%0*d` with width 2 gives two digits reading as the sub-code, for sub-codes 0 to 99 |
| ApiResponse.AtoiOfDigits | api/response/response.go:15 | Digit text within the int64 range reads back as its value |
| ApiResponse.AtoiOfLongDigits | api/response/response.go:15 | Digit text beyond the int64 range reads back as the largest int64 |
| ApiResponse.BuildAPICodeSmall | api/response/response.go:14-17 | For a status `s ≥ 0` and a sub-code 0 to 99, the code is `s*100 + sub` |
| ApiResponse.BuildAPICodeWide | api/response/response.go:14-17 | A sub-code of 100 or more is written out in full: the code is the two numbers side by side, clamped to int64 |
| ApiResponse.BuildAPICodeNegativeSub | api/response/response.go:14-17 | For every int64 status, a negative sub-code puts a `-` after the status digits, so the text does not parse and the code is 0 |
| ApiResponse.StatusAndSubCodeRoundTrip | api/response/response.go:14-148 | `StatusCode` and `SubCode` of `buildAPICode(s, sub)` give back `s` and `sub` for sub-codes 0 to 99 |
| ApiResponse.IsErrorIffCode | api/response/response.go:136-143 | A meta object is an error exactly when its code is 40000 or more |
| ApiResponse.SuccessReply | api/response/response.go:69-80 | A success reply has the HTTP status and code `status*100`, which splits back into status and sub-code 0. It carries no errors and the data, with type and message from the table |
| ApiResponse.ErrorReply | api/response/response.go:54-66 | An error reply's code splits back into status and sub-code. It carries the errors and no data, and is an error exactly for statuses 400 and up |
| ApiResponse.BuiltinSuccessTypes | api/response/response.go:34-46 | With the built-in table, the OK, Created and Accepted helpers are typed `OK`, `Created` and `Accepted` |
| ResponseMapping.Register | api/response/response_mapping.go:86-102 | Fails iff the status is empty with no base-code entry, or the message is empty; the status error wins. On success it adds `code`, overwriting it, and keeps every other entry |
| ResponseMapping.DescribeAfterRegister | api/response/response_mapping.go:80-102 | After a registration, the lookup of `code` gives the new message and the given or inherited status; every other lookup is unchanged |
| ResponseMapping.BuiltinKeys | api/response/response_mapping.go:10-77 | Every built-in key is an HTTP status times 100 plus a sub-code 0 to 3, and its base code is in the table |
| ResponseMapping.RegisterSubCodeInherits | api/response/response_mapping.go:87-93 | A sub-code under a built-in status with an empty status inherits that status |
| ResponseMapping.CodeRegistry.constructor | api/response/response_mapping.go:10-77 | The registry starts with the built-in table |
| ResponseMapping.CodeRegistry.RegisterCustomCode | api/response/response_mapping.go:86-102 | Returns `Register`'s error and leaves the table alone, or stores `Register`'s table and returns no error |
| ServerConfig.ValidateIff | api/server/config.go:49-54 | `Validate` fails exactly when both listeners are nil, with the fixed message |
| ServerConfig.InitEffect | api/server/config.go:56-60 | `init` changes at most the admin listener, and only for an API-only configuration, to `127.0.0.1:9999`. A configuration without an API listener is left alone |
| ServerConfig.InitIdempotent | api/server/config.go:49-60 | `init` is idempotent and never makes a valid configuration invalid |
| ServerConfig.ValidAfterInit | api/server/config.go:49-60 | After `init`, a configuration with an API listener validates and has an admin listener |
| ServerConfig.DefaultConfigFacts | api/server/config.go:39-47 | The default configuration has API `127.0.0.1:8080`, admin `127.0.0.1:9999`, the default pattern, logging off, and it validates |
| ServerConfig.Config.Default | api/server/config.go:39-47 | A new configuration holds `DefaultConfig` |
| ServerConfig.Config.constructor | api/server/config.go:31-37 | A configuration holds the given settings |
| ServerConfig.Config.Init | api/server/config.go:56-60 | The settings become `Initialized` of the old settings |
| MysqlConfig.Config.constructor | datastore/mysql/config.go:10-26 | The zero `Config{}` |
| MysqlConfig.Config.Init | datastore/mysql/config.go:28-36 | Overwrites the seven defaults and only those fields, so `validate`'s result is unchanged |
| MysqlConfig.CheckCredentialsIff | datastore/mysql/config.go:38-49 | `validate` passes iff user, password and database name are all set; otherwise it names the first missing one, in that order |
| MysqlConfig.ValidateSequence | datastore/mysql/config_test.go:9-24 | After `init`, setting user, password and database name one by one yields the three errors in order, then none; max idle connections is 16 |
| Devops.Response | api/server/handlers/devops.go:34-46 | The client sees the status of the first `c.String` call; with no call, 200 and an empty body |
| Devops.StatusText | api/server/handlers/devops.go:14-16 | `http.StatusText` is non-empty exactly for the two codes the status takes |
| Devops.ServiceStatus.constructor | api/server/handlers/devops.go:12 | The status starts at 200 |
| Devops.ServiceStatus.Online | api/server/handlers/devops.go:18-20 | Sets 200 |
| Devops.ServiceStatus.Offline | api/server/handlers/devops.go:22-24 | Sets 503 |
| Devops.ServiceStatus.GetDevopsStatus | api/server/handlers/devops.go:26-28 | Replies with the status and its non-empty status text |
| Devops.ServiceStatus.UpdateDevopsStatus | api/server/handlers/devops.go:30-47 | The replies are `UpdateReplies(form)` and the new status is `UpdatedStatus`; the status stays 200 or 503 |
| Devops.AlwaysRequiredLast | api/server/handlers/devops.go:46 | As written, every call ends with the 400 "parameter 'status' was required" reply |
| Devops.AsWrittenOnline | api/server/handlers/devops.go:36-46 | As written, `status=200` answers 200 with the online message followed by the "required" message |
| Devops.AsWrittenGarbage | api/server/handlers/devops.go:32-46 | As written, `status=up` answers 400 with all three messages and turns the service offline |
| Devops.RejectedValueGoesOffline | api/server/handlers/devops.go:32-43 | As written, any value `Atoi` rejects answers 400 and turns the service offline |
| Devops.UpdateIntended | api/server/handlers/devops.go:30-47 | Corrected handler: one reply, 200 exactly for an accepted value. The status changes only then, to the value posted |
| Devops.IntendedAgrees | api/server/handlers/devops.go:30-47 | The written handler's HTTP status always equals the corrected one's. For accepted values the new status matches too, and the body is the corrected body plus the "required" message |
| GoContext.LookupWithValue | tracing/context.go:13-17 | A new layer answers for its key; every other key is looked up in the parent |
| TracingContext.WithString | tracing/context.go:9-14 | Nil parent gives nil; otherwise the key holds the string and every other key is unchanged |
| TracingContext.GetString | tracing/context.go:16-19 | The stored string, or "" when nothing or a non-string is stored |
| TracingContext.NilParent | tracing/context.go:9-27 | Both setters return nil for a nil parent |
| TracingContext.GetAfterWith | tracing/context_test.go:10-39 | Get after With returns the stored id, and a later With shadows an earlier one, for both ids |
| TracingContext.KeysIndependent | tracing/context.go:9-32 | Setting one id never changes the other |
| TracingContext.GetOnBackground | tracing/context.go:16-32 | A context without ids reads "" for both |
| LogContext.AppendContextFields | log/context.go:12-28 | Nil parent gives nil, and only then |
| LogContext.DynamicDebugLogging | log/context.go:52-57 | Nil stays nil; otherwise the debug key holds `true` |
| LogContext.AppendStores | log/context.go:19-25 | The stored list becomes the new fields followed by the old ones. The new context's parent is the given one, and every other key is unchanged |
| LogContext.AppendTwice | log/context.go:19-25 | Two appends keep the later fields first |
| LogContext.NoFieldsNoResult | log/context.go:35-38 | Without a stored list the result is nil, even when a trace id is stored |
| LogContext.GetContextFieldsShape | log/context.go:40-48 | The stored fields, then `am_trace_id` if the trace id is non-empty, then `cloudflare_ray` if the ray id is non-empty |
| LogContext.AppendThenGet | log/context.go:12-48 | Fields appended over a context with a trace id come back followed by the trace-id field |

## Left out

- Concurrency is not modelled:
  - the `sync.Pool` buffer reuse in `record`;
  - the unsynchronised reads of `enabled` and `slowRequestThreshold` while they are being set.

  The model reads each setting once per request.
- Clock readings (`time.Now`, `time.Since`) are parameters: `receivedAt`, `duration` and `now`.
- `time.Time.Sub` saturation is not modelled; the difference is exact.
- `Time.Format(layout)` and the `%.3f` formatting of `Duration.Seconds()` are function parameters (`Formatters`). They are library and floating-point formatting.
- `URL.Path`, `URL.Query().Encode()` and `URL.RequestURI()` are taken as given strings (`Url`).
- `http.Header` is a map from canonical keys to values, with the canonical form computed on ASCII only. `strings.ToLower` is ASCII-only too; Unicode case mapping is not modelled.
- The error path of template execution and of the sink write in `record` is not modelled. The model's sink always accepts the line.
- `machine.GetLocalIP` is a parameter of `NewAccessLogger`: its result, or the error it reports.
- Gin plumbing is not modelled beyond the flow and the write sequences:
  - `c.Next`, the `c.Writer` swap (kept only as the `Outcome` flags), and `c.JSON`;
  - the internals of the wrapped gin and `http` writers, which are recorded only as the calls forwarded to them.
- The access log wraps gin's writer in a `ginResponseWriter`. That writer takes its header, `Size()` and `Status()` from gin's own writer, which is not modelled: `WriterView`'s header, size and status stand for those values, and gin reports a size of -1 before anything is written. Only `WriterView`'s first-byte time is `GinResponseWriter`'s own field. `responseWriterImpl` is not on the access log's path.
- `reset` also rebinds the wrapped writer. The model has a single wrapped writer.
- Hijack and Flush panic on a writer without the capability. The model assumes the capability is present.
- `Response`'s accessors and `UnmarshalResponse`/`GetData` are not modelled. They are JSON and reflection.
- Error values in `Meta.Errors` are their strings.
- The OpenTelemetry protocol and sampler fields, and the TLS certificate bytes, are not modelled (I/O).
- Compile lemmas for the concrete `DefaultAccessLogPattern` and `JSONAccessLogPattern` are not stated. Unfolding the rewrites over those long strings is too costly for the verifier. The general lemmas cover their pieces: each directive, `%{F}t`, `%{H}i`, and literal text.
- A `[]zap.Field` stored as a nil slice and an empty one are the same empty sequence.
- `append` aliasing of the caller's variadic slice is not modelled; field lists are values.
- A zap field is a key and a string value.
- Context keys of other types than `consts.ContextKey` are not modelled.
- The admin handlers in `api/server/server.go` are not part of this model.

## Findings

| source | as written | input that shows it | evidently intended | confidence | as-written member | corrected member |
|---|---|---|---|---|---|---|
| api/server/middleware/access_log.go:141 | The tag prefix is lower-cased, then compared with `"ReceivedAt"`, `"RequestHeader"` and `"ResponseHeader"`, which can never match | pattern `%{User-Agent}i`: the line holds nothing for the header | header and time tags render the header's value (or `-`) and the formatted time | high, not executed | AccessLogRecord.RequestHeaderLine | AccessLogRecord.RequestHeaderLineIntended |
| api/server/middleware/response_writter.go:70 | The byte counter starts at -1 (line 50) and `Write` adds to it, so `Size()` is one short once anything is written | `WriteHeader(404)`, then `Write("Hello, World!")`: `Size()` is 12, while the test at response_writter_test.go:25 expects 13 | `Size()` equals the bytes written | high, not executed | ResponseWriter.SizeOffByOne | ResponseWriter.RunIntendedCounts |
| api/server/middleware/response_writter.go:67 | On a fresh writer `Write` calls `WriteHeader(200)`, which does nothing because the status is already 200, so no first-byte time is recorded | `Write("hi")` on a fresh writer: `FirstByteTime()` stays zero | the first write records the first-byte time | high, not executed | ResponseWriter.FreshWriteNoFirstByteTime | ResponseWriter.WriteIntendedRecordsFirstByte |
| api/server/middleware/access_log.go:256-261 | The original writer is put back only after logging, so a dropped request keeps the wrapper | logger disabled, threshold 1500 ms, a 10 ms GET: `c.Writer` stays the wrapper | the writer is restored on every path that wrapped it | medium, not executed | AccessLog.WriterLeftWrapped | AccessLog.FlowIntendedRestores |
| api/server/handlers/devops.go:33-46 | No `return` after the 400 reply or after the success reply, so execution falls through | `status=up`: 400 with three messages, and the service goes offline | one reply; a rejected value leaves the status alone | high, not executed | Devops.AsWrittenGarbage | Devops.UpdateIntended |

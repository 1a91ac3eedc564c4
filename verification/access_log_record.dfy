/**
 * Rendering one access-log line (`AccessLogger.record`): every tag of the
 * compiled template is replaced by what the tag switch writes for it, and
 * the line ends with one newline.
 */
module AccessLogRecord {
  import opened Wrappers
  import opened GoInt
  import opened Text
  import opened HttpHeader
  import opened FastTemplate
  import opened Pattern

  /** The views of the request URL the log prints: `URL.Path`, `URL.Query().Encode()`, `URL.RequestURI()`. */
  datatype Url = Url(path: string, encodedQuery: string, requestURI: string)

  /**
   * `LogItem`. Times are clock readings in nanoseconds, 0 standing for the
   * zero `time.Time`; `latency` is a duration in nanoseconds.
   */
  datatype LogItem = LogItem(
    traceId: string,
    contentLength: int,
    url: Url,
    requestHeader: Header,
    responseHeader: Header,
    remoteAddr: string,
    httpMethod: string,
    proto: string,
    receivedAt: int,
    firstByteTime: int,
    latency: int,
    bytesSent: int,
    statusCode: int)

  /** The formatting the log leaves to the Go library: `Time.Format(layout)` and `%.3f` of `Duration.Seconds()`. */
  datatype Formatters = Formatters(formatTime: (int, string) -> string, formatSeconds: int -> string)

  const NanosPerMilli := 1_000_000

  /** `Duration.Milliseconds()`: truncated toward zero. */
  function Milliseconds(d: int): int {
    Quot(d, NanosPerMilli)
  }

  const Dash := "-"

  function DashIfEmpty(v: string): string {
    if v == "" then Dash else v
  }

  /** The labels the dynamic-tag switch compares the tag's prefix with. */
  datatype Labels = Labels(time: string, request: string, response: string)

  /** The labels as the switch spells them. */
  const WrittenLabels := Labels(TimeFamily, RequestHeaderFamily, ResponseHeaderFamily)

  /** The labels lower-cased, matching the lower-cased prefix they are compared with. */
  const LoweredLabels := Labels(Lower(TimeFamily), Lower(RequestHeaderFamily), Lower(ResponseHeaderFamily))

  /** The tags the switch names one by one. */
  const FixedTags: set<string> := {
    "AM-Trace-ID", "Content-Length", "RemoteIP", "LocalIP", "BytesSent|-", "BytesSent|0",
    "Proto", "Method", "QueryString", "RequestURI", "URLPath", "StatusCode",
    "Latency|-", "Latency|s", "FirstByteTime|-"
  }

  /** The cases of the tag switch. */
  function RenderFixed(tag: string, item: LogItem, localIP: string, fmts: Formatters): string
    requires tag in FixedTags
  {
    if tag == "AM-Trace-ID" then item.traceId
    else if tag == "Content-Length" then FormatInt(item.contentLength)
    else if tag == "RemoteIP" then item.remoteAddr
    else if tag == "LocalIP" then localIP
    else if tag == "BytesSent|-" then (if item.bytesSent == 0 then Dash else FormatInt(item.bytesSent))
    else if tag == "BytesSent|0" then FormatInt(item.bytesSent)
    else if tag == "Proto" then item.proto
    else if tag == "Method" then item.httpMethod
    else if tag == "QueryString" then item.url.encodedQuery
    else if tag == "RequestURI" then item.url.requestURI
    else if tag == "URLPath" then item.url.path
    else if tag == "StatusCode" then FormatInt(item.statusCode)
    else if tag == "Latency|-" then FormatInt(Milliseconds(item.latency))
    else if tag == "Latency|s" then fmts.formatSeconds(item.latency)
    else if item.firstByteTime == 0 then Dash
    else FormatInt(Milliseconds(item.firstByteTime - item.receivedAt))
  }

  /** What the default case writes for a tag whose (lower-cased) family is `key`. */
  function FamilyValue(labels: Labels, key: string, arg: string, item: LogItem, fmts: Formatters): string {
    if key == labels.time then fmts.formatTime(item.receivedAt, arg)
    else if key == labels.request then DashIfEmpty(Get(item.requestHeader, arg))
    else if key == labels.response then DashIfEmpty(Get(item.responseHeader, arg))
    else ""
  }

  /**
   * The default case: a `family|argument` tag is looked up by its
   * lower-cased family; a tag without a family renders nothing.
   */
  function RenderDynamic(labels: Labels, tag: string, item: LogItem, fmts: Formatters): string {
    var tagIndex := Index(tag, '|');
    var tagLower := if tagIndex > 0 then Lower(tag[..tagIndex]) else "";
    if tagIndex > 0 then FamilyValue(labels, tagLower, tag[tagIndex + 1..], item, fmts) else ""
  }

  /** The tag function: a tag named by a case of the switch, or the default case. */
  function RenderWith(labels: Labels, tag: string, item: LogItem, localIP: string, fmts: Formatters): string {
    if tag in FixedTags then RenderFixed(tag, item, localIP, fmts) else RenderDynamic(labels, tag, item, fmts)
  }

  /** The tag function of `record` as written: the lower-cased prefix is compared with the mixed-case labels. */
  function RenderTag(tag: string, item: LogItem, localIP: string, fmts: Formatters): string {
    RenderWith(WrittenLabels, tag, item, localIP, fmts)
  }

  /** The tag function with the comparison the lower-casing evidently prepares for. */
  function RenderTagIntended(tag: string, item: LogItem, localIP: string, fmts: Formatters): string {
    RenderWith(LoweredLabels, tag, item, localIP, fmts)
  }

  /** The closure `record` passes to `ExecuteFunc`. */
  function TagFunction(item: LogItem, localIP: string, fmts: Formatters): string -> string {
    tag => RenderTag(tag, item, localIP, fmts)
  }

  /** The line `record` hands to the sink: the executed template and one newline. */
  function Line(t: Template, item: LogItem, localIP: string, fmts: Formatters): string
    requires Shaped(t)
  {
    Execute(t, TagFunction(item, localIP, fmts)) + "\n"
  }

  function LineIntended(t: Template, item: LogItem, localIP: string, fmts: Formatters): string
    requires Shaped(t)
  {
    Execute(t, tag => RenderTagIntended(tag, item, localIP, fmts)) + "\n"
  }

  /** `BytesSent|-` renders `-` exactly for zero bytes, otherwise the count in decimal. */
  lemma BytesSentDashTag(item: LogItem, localIP: string, fmts: Formatters)
    ensures var r := RenderTag("BytesSent|-", item, localIP, fmts);
            && (r == Dash <==> item.bytesSent == 0)
            && (item.bytesSent != 0 && IsInt64(item.bytesSent) ==> Atoi(r) == Number(item.bytesSent))
  {
    var s := FormatInt(item.bytesSent);
    assert s != Dash by {
      assert IsDigit(s[|s| - 1]);
    }
    if IsInt64(item.bytesSent) {
      AtoiFormatInt(item.bytesSent);
    }
  }

  /** `BytesSent|0`, `StatusCode` and `Content-Length` always render the decimal value (`-1` included). */
  lemma DecimalTags(item: LogItem, localIP: string, fmts: Formatters)
    requires IsInt64(item.bytesSent) && IsInt64(item.statusCode) && IsInt64(item.contentLength)
    ensures Atoi(RenderTag("BytesSent|0", item, localIP, fmts)) == Number(item.bytesSent)
    ensures Atoi(RenderTag("StatusCode", item, localIP, fmts)) == Number(item.statusCode)
    ensures Atoi(RenderTag("Content-Length", item, localIP, fmts)) == Number(item.contentLength)
  {
    AtoiFormatInt(item.bytesSent);
    AtoiFormatInt(item.statusCode);
    AtoiFormatInt(item.contentLength);
  }

  /** `Latency|-` renders the whole milliseconds of the latency, truncated toward zero, and never `-`. */
  lemma LatencyTag(item: LogItem, localIP: string, fmts: Formatters)
    requires IsInt64(item.latency)
    ensures var r := RenderTag("Latency|-", item, localIP, fmts);
            && r != Dash
            && Atoi(r) == Number(Milliseconds(item.latency))
            && (item.latency >= 0 ==> 0 <= item.latency - 1_000_000 * Milliseconds(item.latency) < 1_000_000)
  {
    var ms := Milliseconds(item.latency);
    var s := FormatInt(ms);
    assert s != Dash by {
      assert IsDigit(s[|s| - 1]);
    }
    AtoiFormatInt(ms);
  }

  /**
   * `FirstByteTime|-` renders `-` exactly when no first byte was recorded,
   * otherwise the whole milliseconds between receipt and first byte.
   */
  lemma FirstByteTimeTag(item: LogItem, localIP: string, fmts: Formatters)
    requires IsInt64(item.firstByteTime - item.receivedAt)
    ensures var r := RenderTag("FirstByteTime|-", item, localIP, fmts);
            && (r == Dash <==> item.firstByteTime == 0)
            && (item.firstByteTime != 0 ==> Atoi(r) == Number(Milliseconds(item.firstByteTime - item.receivedAt)))
  {
    var ms := Milliseconds(item.firstByteTime - item.receivedAt);
    var s := FormatInt(ms);
    assert s != Dash by {
      assert IsDigit(s[|s| - 1]);
    }
    AtoiFormatInt(ms);
  }

  /** A lower-cased prefix never equals a label that starts with an upper-case letter. */
  lemma LoweredIsNotWritten(tag: string, i: int, name: string)
    requires 0 < i <= |tag| && name != [] && IsUpper(name[0])
    ensures Lower(tag[..i]) != name
  {
    assert !IsUpper(Lower(tag[..i])[0]);
  }

  /**
   * As written, every tag outside the fixed ones renders nothing, the
   * `ReceivedAt|…`, `RequestHeader|…` and `ResponseHeader|…` tags included.
   */
  lemma UnlistedTagRendersNothing(tag: string, item: LogItem, localIP: string, fmts: Formatters)
    requires tag !in FixedTags
    ensures RenderTag(tag, item, localIP, fmts) == ""
  {
    var i := Index(tag, '|');
    if i > 0 {
      LoweredIsNotWritten(tag, i, TimeFamily);
      LoweredIsNotWritten(tag, i, RequestHeaderFamily);
      LoweredIsNotWritten(tag, i, ResponseHeaderFamily);
    }
  }

  /** The intended renderer differs from the written one only on the tags outside the fixed ones. */
  lemma IntendedAgreesOnFixedTags(tag: string, item: LogItem, localIP: string, fmts: Formatters)
    requires tag in FixedTags
    ensures RenderTagIntended(tag, item, localIP, fmts) == RenderTag(tag, item, localIP, fmts)
  {
  }

  /** In `family|argument` with no `|` in the family, the first `|` is the one after the family. */
  lemma FamilyIndex(family: string, arg: string)
    requires '|' !in family
    ensures Index(family + "|" + arg, '|') == |family|
    ensures (family + "|" + arg)[..|family|] == family && (family + "|" + arg)[|family| + 1..] == arg
  {
    var tag := family + "|" + arg;
    forall k | 0 <= k < |family| ensures tag[k] != '|' {
      assert tag[k] == family[k];
    }
    IndexIs(tag, '|', |family|);
  }

  /** A `family|argument` tag outside the fixed ones reaches the default case with the family lower-cased. */
  lemma DynamicTag(family: string, arg: string, labels: Labels, item: LogItem, localIP: string, fmts: Formatters)
    requires family != [] && '|' !in family && family + "|" + arg !in FixedTags
    ensures RenderWith(labels, family + "|" + arg, item, localIP, fmts)
         == FamilyValue(labels, Lower(family), arg, item, fmts)
  {
    FamilyIndex(family, arg);
  }

  /** The tags the compiler builds from `%{…}t`, `%{…}i` and `%{…}o` are not among the fixed ones. */
  lemma FamilyTagsNotFixed(arg: string)
    ensures '|' !in TimeFamily && '|' !in RequestHeaderFamily && '|' !in ResponseHeaderFamily
    ensures TimeFamily + "|" + arg !in FixedTags
    ensures RequestHeaderFamily + "|" + arg !in FixedTags
    ensures ResponseHeaderFamily + "|" + arg !in FixedTags
  {
    var t, q, r := TimeFamily + "|" + arg, RequestHeaderFamily + "|" + arg, ResponseHeaderFamily + "|" + arg;
    assert |t| >= 11 && t[0] == 'R' && t[2] == 'c';
    assert |q| >= 14 && q[0] == 'R';
    assert |r| >= 15 && r[0] == 'R';
  }

  /** With the intended comparison a request-header tag renders the header's value, or `-`. */
  lemma IntendedRequestHeaderTag(h: string, item: LogItem, localIP: string, fmts: Formatters)
    ensures RenderTagIntended(RequestHeaderFamily + "|" + h, item, localIP, fmts)
         == DashIfEmpty(Get(item.requestHeader, h))
  {
    FamilyTagsNotFixed(h);
    DynamicTag(RequestHeaderFamily, h, LoweredLabels, item, localIP, fmts);
  }

  /** With the intended comparison a response-header tag renders the header's value, or `-`. */
  lemma IntendedResponseHeaderTag(h: string, item: LogItem, localIP: string, fmts: Formatters)
    ensures RenderTagIntended(ResponseHeaderFamily + "|" + h, item, localIP, fmts)
         == DashIfEmpty(Get(item.responseHeader, h))
  {
    FamilyTagsNotFixed(h);
    DynamicTag(ResponseHeaderFamily, h, LoweredLabels, item, localIP, fmts);
  }

  /** With the intended comparison a time tag renders the receive time in the given layout. */
  lemma IntendedTimeTag(layout: string, item: LogItem, localIP: string, fmts: Formatters)
    ensures RenderTagIntended(TimeFamily + "|" + layout, item, localIP, fmts)
         == fmts.formatTime(item.receivedAt, layout)
  {
    FamilyTagsNotFixed(layout);
    DynamicTag(TimeFamily, layout, LoweredLabels, item, localIP, fmts);
  }

  /** A pattern with no `%` and no `${` compiles to itself, and every line it logs is that text. */
  lemma LiteralPatternLine(p: string, item: LogItem, localIP: string, fmts: Formatters)
    requires '%' !in p && IndexPair(p, '$', '{') < 0
    ensures Compile(p) == Ok(Template([p], []))
    ensures Line(Compile(p).value, item, localIP, fmts) == p + "\n"
  {
    BuildWithoutPercent(p);
  }

  /** Executing `text ${tag}` gives the text followed by what the tag renders. */
  lemma ExecuteTextThenTag(a: string, tag: string, f: string -> string)
    ensures Execute(Template([a, ""], [tag]), f) == a + f(tag)
  {
    var t := Template([a, ""], [tag]);
    assert Rest(t) == Template([""], []);
  }

  /**
   * As written, a pattern ending in `%{H}i` logs nothing for the header:
   * the line is the text before the item and the newline.
   */
  lemma RequestHeaderLine(a: string, h: string, item: LogItem, localIP: string, fmts: Formatters)
    requires '%' !in a && IndexPair(a, '$', '{') < 0
    requires h != [] && '%' !in h && NoEndTag(h)
    ensures Compile(a + ("%{" + h + "}" + ['i'])).Ok?
    ensures Line(Compile(a + ("%{" + h + "}" + ['i'])).value, item, localIP, fmts) == a + "\n"
  {
    CompileRequestHeader(a, h);
    var tag := RequestHeaderFamily + "|" + Lower(h);
    FamilyTagsNotFixed(Lower(h));
    UnlistedTagRendersNothing(tag, item, localIP, fmts);
    ExecuteTextThenTag(a, tag, TagFunction(item, localIP, fmts));
  }

  /**
   * With the intended comparison the same line carries the value of header
   * H (looked up without regard to case), or `-` when it is absent.
   */
  lemma RequestHeaderLineIntended(a: string, h: string, item: LogItem, localIP: string, fmts: Formatters)
    requires '%' !in a && IndexPair(a, '$', '{') < 0
    requires h != [] && '%' !in h && NoEndTag(h) && IsToken(h)
    ensures Compile(a + ("%{" + h + "}" + ['i'])).Ok?
    ensures LineIntended(Compile(a + ("%{" + h + "}" + ['i'])).value, item, localIP, fmts)
         == a + DashIfEmpty(Get(item.requestHeader, h)) + "\n"
  {
    CompileRequestHeader(a, h);
    var tag := RequestHeaderFamily + "|" + Lower(h);
    IntendedRequestHeaderTag(Lower(h), item, localIP, fmts);
    LowerIdempotent(h);
    GetIgnoresCase(item.requestHeader, h, Lower(h));
    ExecuteTextThenTag(a, tag, tag => RenderTagIntended(tag, item, localIP, fmts));
  }
}

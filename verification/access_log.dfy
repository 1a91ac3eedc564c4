/**
 * The access-log middleware: the logger's settings, its construction, the
 * snapshot it takes of a finished request, and the decision whether a
 * request is logged (`AccessLog`).
 */
module AccessLog {
  import opened Wrappers
  import opened Text
  import opened HttpHeader
  import opened FastTemplate
  import opened Pattern
  import opened AccessLogRecord

  const HostHeader := "Host"
  const TraceContextHeader := "x-cloud-trace-context"
  const MethodOptions := "OPTIONS"

  /** 1500 ms, in nanoseconds. */
  const DefaultSlowRequestThreshold := 1500 * NanosPerMilli

  /** The parts of the incoming `http.Request` the log reads. */
  datatype Request = Request(
    httpMethod: string,
    proto: string,
    host: string,
    remoteAddr: string,
    header: Header,
    contentLength: int,
    url: Url)

  /**
   * What the log reads from the wrapping `ginResponseWriter` once the
   * handlers have run: header, size and status are those of gin's own
   * writer, which it delegates to; the first-byte time is its own.
   */
  datatype WriterView = WriterView(header: Header, size: int, status: int, firstByteTime: int)

  /** `ignoreRequest`: pre-flight requests are never logged. */
  predicate IgnoreRequest(r: Request) {
    r.httpMethod == MethodOptions
  }

  /** The host part of `RemoteAddr`: the text before its first `:`, or "" when it has none. */
  function RemoteHost(addr: string): string {
    var i := Index(addr, ':');
    if i != -1 then addr[..i] else ""
  }

  /** The remote host holds no `:`; it and a `:` start the address, or it is "" for an address without one. */
  lemma RemoteHostSpec(addr: string)
    ensures ':' !in RemoteHost(addr)
    ensures ':' in addr ==> RemoteHost(addr) + ":" <= addr
    ensures ':' !in addr ==> RemoteHost(addr) == ""
  {
    var i := Index(addr, ':');
    if i >= 0 {
      forall k | 0 <= k < i ensures addr[..i][k] != ':' {
        IndexFirst(addr, ':', k);
      }
      assert addr[..i] + ":" == addr[..i + 1];
    } else if ':' in addr {
      var k :| 0 <= k < |addr| && addr[k] == ':';
      IndexFirst(addr, ':', k);
    }
  }

  /**
   * `createLogItem`: the request's `Host` header is overwritten with its
   * host (the request is returned with that header), and the item is
   * filled from the request, the two clock readings and the writer.
   */
  function CreateLogItem(r: Request, w: WriterView, receivedAt: int, duration: int): (LogItem, Request) {
    var header := Set(r.header, HostHeader, r.host);
    var item := LogItem(
      Get(header, TraceContextHeader), r.contentLength, r.url, header, w.header,
      RemoteHost(r.remoteAddr), r.httpMethod, r.proto, receivedAt, w.firstByteTime,
      duration, w.size, w.status);
    (item, r.(header := header))
  }

  /**
   * The snapshot reads the host from the `Host` header, the trace id from
   * the header as it came in, and size, status and first-byte time from the
   * writer; only the `Host` entry of the request's header changes.
   */
  lemma CreateLogItemSnapshot(r: Request, w: WriterView, receivedAt: int, duration: int)
    ensures var (item, r') := CreateLogItem(r, w, receivedAt, duration);
            && Get(item.requestHeader, HostHeader) == r.host
            && item.traceId == Get(r.header, TraceContextHeader)
            && r'.header == item.requestHeader
            && (forall k :: CanonicalKey(k) != CanonicalKey(HostHeader) ==> Get(r'.header, k) == Get(r.header, k))
            && r' == r.(header := r'.header)
            && item.bytesSent == w.size && item.statusCode == w.status && item.firstByteTime == w.firstByteTime
            && item.responseHeader == w.header
            && ':' !in item.remoteAddr
  {
    GetAfterSet(r.header, HostHeader, r.host);
    assert CanonicalKey(TraceContextHeader) != CanonicalKey(HostHeader) by {
      assert |CanonicalKey(TraceContextHeader)| == 21;
    }
    GetOtherAfterSet(r.header, HostHeader, r.host, TraceContextHeader);
    forall k | CanonicalKey(k) != CanonicalKey(HostHeader)
      ensures Get(Set(r.header, HostHeader, r.host), k) == Get(r.header, k)
    {
      GetOtherAfterSet(r.header, HostHeader, r.host, k);
    }
    RemoteHostSpec(r.remoteAddr);
  }

  /** The check before the handlers run: the request passes through, its writer not wrapped. */
  predicate PassThrough(enabled: bool, threshold: int, r: Request) {
    (!enabled && threshold <= 0) || IgnoreRequest(r)
  }

  /** The check after the handlers ran: a disabled logger drops a request faster than the threshold. */
  predicate DropAfter(enabled: bool, threshold: int, duration: int) {
    !enabled && duration < threshold
  }

  /** What the handler does with one request: wrap the writer, log the request, put the writer back. */
  datatype Outcome = Outcome(wrapped: bool, recorded: bool, restored: bool)

  /** The handler's flow as written: the original writer is put back only after logging. */
  function Flow(enabled: bool, threshold: int, r: Request, duration: int): Outcome {
    if PassThrough(enabled, threshold, r) then Outcome(false, false, false)
    else if DropAfter(enabled, threshold, duration) then Outcome(true, false, false)
    else Outcome(true, true, true)
  }

  /** The flow with the writer put back on every path that wrapped it. */
  function FlowIntended(enabled: bool, threshold: int, r: Request, duration: int): Outcome {
    var o := Flow(enabled, threshold, r, duration);
    o.(restored := o.wrapped)
  }

  /**
   * A request is logged exactly when it is not `OPTIONS` and the logger is
   * enabled or the request took at least a positive threshold.
   */
  lemma RecordedIff(enabled: bool, threshold: int, r: Request, duration: int)
    ensures Flow(enabled, threshold, r, duration).recorded
        <==> r.httpMethod != MethodOptions && (enabled || (0 < threshold && threshold <= duration))
    ensures Flow(enabled, threshold, r, duration).recorded ==> Flow(enabled, threshold, r, duration).wrapped
  {
  }

  /**
   * As written the writer stays swapped exactly for the requests a disabled
   * logger wraps and then drops as fast.
   */
  lemma WriterLeftWrapped(enabled: bool, threshold: int, r: Request, duration: int)
    ensures var o := Flow(enabled, threshold, r, duration);
            (o.wrapped && !o.restored
             <==> !enabled && 0 < threshold && duration < threshold && r.httpMethod != MethodOptions)
  {
  }

  /** The intended flow logs the same requests and never leaves the writer swapped. */
  lemma FlowIntendedRestores(enabled: bool, threshold: int, r: Request, duration: int)
    ensures var o := FlowIntended(enabled, threshold, r, duration);
            && o.recorded == Flow(enabled, threshold, r, duration).recorded
            && o.restored == o.wrapped
            && (o.wrapped <==> !PassThrough(enabled, threshold, r))
  {
  }

  /** Why `NewAccessLogger` fails. */
  datatype NewLoggerError = TemplateError(parse: ParseError) | LocalIPError(reason: string)

  /** `AccessLogger`: its settings, its compiled pattern and the lines written to its sink so far. */
  class AccessLogger {
    var enabled: bool
    var ip: string
    var pattern: string
    var template: Template
    var slowRequestThreshold: int
    var written: seq<string>

    /** The template is the compiled pattern. */
    ghost predicate Valid()
      reads this
    {
      Compile(pattern) == Ok(template)
    }

    constructor (pattern: string, template: Template, ip: string)
      requires Compile(pattern) == Ok(template)
      ensures Valid()
      ensures this.pattern == pattern && this.template == template && this.ip == ip
      ensures enabled && slowRequestThreshold == DefaultSlowRequestThreshold && written == []
    {
      this.enabled := true;
      this.ip := ip;
      this.pattern := pattern;
      this.template := template;
      this.slowRequestThreshold := DefaultSlowRequestThreshold;
      this.written := [];
    }

    method Disabled()
      modifies this`enabled
      ensures !enabled && Status() == "disabled"
    {
      enabled := false;
    }

    method Enabled()
      modifies this`enabled
      ensures enabled && Status() == "enabled"
    {
      enabled := true;
    }

    function Status(): string
      reads this
    {
      if enabled then "enabled" else "disabled"
    }

    method SetSlowRequestThreshold(duration: int)
      modifies this`slowRequestThreshold
      ensures slowRequestThreshold == duration
    {
      slowRequestThreshold := duration;
    }

    /** `record`: one write to the sink, holding the rendered template and a newline. */
    method Record(item: LogItem, fmts: Formatters)
      requires Valid()
      modifies this`written
      ensures written == old(written) + [Line(template, item, ip, fmts)]
    {
      var buf: string := [];
      buf := buf + Execute(template, TagFunction(item, ip, fmts));
      buf := buf + ['\n'];
      assert buf == Line(template, item, ip, fmts);
      written := written + [buf];
    }

    /**
     * The handler `AccessLog` returns, for one request: `receivedAt` and
     * `duration` are the two clock readings, `w` what the wrapped writer
     * saw while the handlers ran. Returns the request as the handler left
     * it.
     */
    method Handle(r: Request, w: WriterView, receivedAt: int, duration: int, fmts: Formatters)
      returns (outcome: Outcome, r': Request)
      requires Valid()
      modifies this`written
      ensures outcome == Flow(enabled, slowRequestThreshold, r, duration)
      ensures outcome.recorded ==>
                var (item, req) := CreateLogItem(r, w, receivedAt, duration);
                r' == req && written == old(written) + [Line(template, item, ip, fmts)]
      ensures !outcome.recorded ==> r' == r && written == old(written)
    {
      if PassThrough(enabled, slowRequestThreshold, r) {
        return Outcome(false, false, false), r;
      }
      if DropAfter(enabled, slowRequestThreshold, duration) {
        return Outcome(true, false, false), r;
      }
      var (item, req) := CreateLogItem(r, w, receivedAt, duration);
      Record(item, fmts);
      outcome, r' := Outcome(true, true, true), req;
    }
  }

  /**
   * `NewAccessLogger`: a pattern that does not compile is reported first,
   * then a failure to find the local address (given here as `localIP`);
   * otherwise a logger that is enabled with the default threshold.
   */
  method NewAccessLogger(pattern: string, localIP: Result<string, string>)
    returns (r: Result<AccessLogger, NewLoggerError>)
    ensures Compile(pattern).Err? ==> r == Err(TemplateError(Compile(pattern).error))
    ensures Compile(pattern).Ok? && localIP.Err? ==> r == Err(LocalIPError(localIP.error))
    ensures r.Ok? <==> Compile(pattern).Ok? && localIP.Ok?
    ensures r.Ok? ==> && fresh(r.value) && r.value.Valid()
                      && r.value.pattern == pattern && r.value.ip == localIP.value
                      && r.value.enabled && r.value.slowRequestThreshold == DefaultSlowRequestThreshold
                      && r.value.written == []
  {
    var compiled := Compile(pattern);
    if compiled.Err? {
      return Err(TemplateError(compiled.error));
    }
    if localIP.Err? {
      return Err(LocalIPError(localIP.error));
    }
    var logger := new AccessLogger(pattern, compiled.value, localIP.value);
    r := Ok(logger);
  }
}

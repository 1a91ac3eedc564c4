/** The zap fields a request's context carries into its log lines, and the per-request debug switch. */
module LogContext {
  import opened Wrappers
  import opened GoContext
  import opened TracingContext
  import Consts

  /** `ctxLogger`: the key of the stored field list. */
  const LoggerKey := ContextKey("ctx_logger")
  const EnableDebugLoggingKey := ContextKey(Consts.ContextKeyEnableDebugLogging)

  /** The field list stored in `ctx`, if a value under the key is a field list. */
  function StoredFields(ctx: Context): Option<seq<Field>> {
    match Lookup(ctx, LoggerKey)
    case Some(Fields(fs)) => Some(fs)
    case _ => None
  }

  /** `AppendContextFields`: a new layer holding the new fields followed by the ones stored before. */
  function AppendContextFields(parent: Option<Context>, fields: seq<Field>): (r: Option<Context>)
    ensures parent.None? <==> r.None?
  {
    if parent.None? then None
    else
      var stored := StoredFields(parent.value);
      var all := if stored.Some? then fields + stored.value else fields;
      Some(WithValue(parent.value, LoggerKey, Fields(all)))
  }

  /**
   * `GetContextFields`: nil for a nil context or one without a field list;
   * otherwise the stored fields, then the trace id and the ray id as fields
   * when they are not empty.
   */
  function GetContextFields(ctx: Option<Context>): Option<seq<Field>> {
    if ctx.None? then None
    else match StoredFields(ctx.value)
      case None => None
      case Some(fields) =>
        var traceID := GetAmTraceID(ctx.value);
        var withTrace := if traceID != "" then fields + [Field(Consts.KeyAMTraceID, traceID)] else fields;
        var rayID := GetCloudflareRayID(ctx.value);
        Some(if rayID != "" then withTrace + [Field(Consts.KeyCloudflareRay, rayID)] else withTrace)
  }

  /** `DynamicDebugLogging`: nil stays nil, otherwise the debug flag is set. */
  function DynamicDebugLogging(parent: Option<Context>): (r: Option<Context>)
    ensures parent.None? <==> r.None?
    ensures r.Some? ==> Lookup(r.value, EnableDebugLoggingKey) == Some(Flag(true))
  {
    if parent.None? then None else Some(WithValue(parent.value, EnableDebugLoggingKey, Flag(true)))
  }

  /**
   * Appending stores the new fields before the earlier ones, and the
   * parent's own list is left as it was; nothing else in the context changes.
   */
  lemma AppendStores(parent: Context, fields: seq<Field>)
    ensures var r := AppendContextFields(Some(parent), fields).value;
            && StoredFields(r) == Some(fields + (if StoredFields(parent).Some? then StoredFields(parent).value else []))
            && r.parent == parent
            && forall k :: k != LoggerKey ==> Lookup(r, k) == Lookup(parent, k)
  {
    assert fields + [] == fields;
  }

  /** Two appends keep the later fields first. */
  lemma AppendTwice(parent: Context, first: seq<Field>, second: seq<Field>)
    requires StoredFields(parent).None?
    ensures StoredFields(AppendContextFields(AppendContextFields(Some(parent), first), second).value)
         == Some(second + first)
  {
  }

  /** Without a stored field list nothing is returned, even when a trace id is stored. */
  lemma NoFieldsNoResult(ctx: Context)
    requires StoredFields(ctx).None?
    ensures GetContextFields(Some(ctx)) == None
  {
  }

  /**
   * With a stored list the result is that list followed by exactly the
   * non-empty ids, trace id first.
   */
  lemma GetContextFieldsShape(ctx: Context)
    requires StoredFields(ctx).Some?
    ensures var fs := StoredFields(ctx).value;
            var t, c := GetAmTraceID(ctx), GetCloudflareRayID(ctx);
            GetContextFields(Some(ctx)) == Some(fs + (if t != "" then [Field(Consts.KeyAMTraceID, t)] else [])
                                                   + (if c != "" then [Field(Consts.KeyCloudflareRay, c)] else []))
  {
    var fs := StoredFields(ctx).value;
    var t, c := GetAmTraceID(ctx), GetCloudflareRayID(ctx);
    if t == "" {
      assert fs + [] == fs;
    }
    if c == "" {
      assert (fs + (if t != "" then [Field(Consts.KeyAMTraceID, t)] else [])) + [] == fs + (if t != "" then [Field(Consts.KeyAMTraceID, t)] else []);
    }
  }

  /** The ids are read from the context itself: an append keeps them in the result. */
  lemma AppendThenGet(ctx: Context, fields: seq<Field>, traceID: string)
    requires traceID != "" && GetCloudflareRayID(ctx) == "" && StoredFields(ctx).None?
    ensures GetContextFields(AppendContextFields(WithAmTraceID(Some(ctx), traceID), fields))
         == Some(fields + [Field(Consts.KeyAMTraceID, traceID)])
  {
    var c := WithAmTraceID(Some(ctx), traceID).value;
    var r := AppendContextFields(Some(c), fields).value;
    assert GetAmTraceID(r) == traceID;
    assert GetCloudflareRayID(r) == "";
  }
}

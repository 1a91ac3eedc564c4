/** Storing and reading the request's trace id and Cloudflare ray id in a context. */
module TracingContext {
  import opened Wrappers
  import opened GoContext
  import Consts

  const TraceIDKey := ContextKey(Consts.ContextKeyTraceID)
  const CloudflareRayKey := ContextKey(Consts.ContextKeyCloudflareRay)

  /** A layer holding a string under `key`, or nil for a nil parent. */
  function WithString(parent: Option<Context>, key: Key, s: string): (r: Option<Context>)
    ensures parent.None? <==> r.None?
    ensures r.Some? ==> Lookup(r.value, key) == Some(Str(s))
    ensures r.Some? ==> forall k :: k != key ==> Lookup(r.value, k) == Lookup(parent.value, k)
  {
    if parent.None? then None else Some(WithValue(parent.value, key, Str(s)))
  }

  /** The string stored under `key`, or "" when none is stored or the value is not a string. */
  function GetString(ctx: Context, key: Key): (s: string)
    ensures Lookup(ctx, key).Some? && Lookup(ctx, key).value.Str? ==> s == Lookup(ctx, key).value.s
    ensures (Lookup(ctx, key).None? || !Lookup(ctx, key).value.Str?) ==> s == ""
  {
    match Lookup(ctx, key)
    case Some(Str(s)) => s
    case _ => ""
  }

  function WithAmTraceID(parent: Option<Context>, traceID: string): Option<Context> {
    WithString(parent, TraceIDKey, traceID)
  }

  function GetAmTraceID(ctx: Context): string {
    GetString(ctx, TraceIDKey)
  }

  function WithCloudflareRayID(parent: Option<Context>, rayID: string): Option<Context> {
    WithString(parent, CloudflareRayKey, rayID)
  }

  function GetCloudflareRayID(ctx: Context): string {
    GetString(ctx, CloudflareRayKey)
  }

  /** On a nil parent both setters return nil. */
  lemma NilParent(id: string)
    ensures WithAmTraceID(None, id) == None && WithCloudflareRayID(None, id) == None
  {
  }

  /** Get after With returns the stored id; a newer With shadows an older one. */
  lemma GetAfterWith(ctx: Context, first: string, second: string)
    ensures GetAmTraceID(WithAmTraceID(Some(ctx), first).value) == first
    ensures GetAmTraceID(WithAmTraceID(WithAmTraceID(Some(ctx), first), second).value) == second
    ensures GetCloudflareRayID(WithCloudflareRayID(Some(ctx), first).value) == first
    ensures GetCloudflareRayID(WithCloudflareRayID(WithCloudflareRayID(Some(ctx), first), second).value) == second
  {
  }

  /** The two ids are independent: setting one never changes the other. */
  lemma KeysIndependent(ctx: Context, id: string)
    ensures GetCloudflareRayID(WithAmTraceID(Some(ctx), id).value) == GetCloudflareRayID(ctx)
    ensures GetAmTraceID(WithCloudflareRayID(Some(ctx), id).value) == GetAmTraceID(ctx)
  {
  }

  /** A context without either id reads "" for both. */
  lemma GetOnBackground()
    ensures GetAmTraceID(Background) == "" && GetCloudflareRayID(Background) == ""
  {
  }
}

/**
 * The part of Go's `context` package the trace and log helpers use: a
 * chain of key/value layers over a background context, where a lookup
 * finds the innermost layer with the key.
 */
module GoContext {
  import opened Wrappers

  /** `consts.ContextKey`: keys compare by their name. */
  datatype Key = ContextKey(name: string)

  /** A zap field, carried as key and string value. */
  datatype Field = Field(key: string, value: string)

  /** The values the helpers store: strings, zap field lists, and the debug flag. */
  datatype Value = Str(s: string) | Fields(fields: seq<Field>) | Flag(b: bool)

  /** A non-nil `context.Context`; the nil context is `None` where it can occur. */
  datatype Context = Background | WithValue(parent: Context, key: Key, value: Value)

  /** `ctx.Value(key)`: the value of the innermost layer with `key`, or `None`. */
  function Lookup(ctx: Context, key: Key): Option<Value> {
    match ctx
    case Background => None
    case WithValue(parent, k, v) => if k == key then Some(v) else Lookup(parent, key)
  }

  /** A new layer answers for its key, and every other key is looked up as before. */
  lemma LookupWithValue(parent: Context, key: Key, value: Value, other: Key)
    ensures Lookup(WithValue(parent, key, value), key) == Some(value)
    ensures other != key ==> Lookup(WithValue(parent, key, value), other) == Lookup(parent, other)
  {
  }
}

/**
 * The HTTP server's configuration: its defaults, `Validate`, and `init`,
 * which fills in the admin listener when only the API listener is set.
 */
module ServerConfig {
  import opened Wrappers
  import Consts

  const DefaultAPIAddr := "127.0.0.1:8080"
  const DefaultAdminAddr := "127.0.0.1:9999"
  const EmptyListenersError := "api/admin config SHOULD NOT be empty at the same time"

  datatype AdminCfg = AdminCfg(addr: string, basePath: string)
  datatype APICfg = APICfg(addr: string, basePath: string)
  datatype AccessLogCfg = AccessLogCfg(enabled: bool, pattern: string)

  /** The fields of `tracing.OTLConfig` that are plain values (protocol and sampler are not modelled). */
  datatype OTLConfig = OTLConfig(endpoint: string, exporter: string, urlPath: string, isExport: bool)

  /** `Config`; a nil pointer is `None`, `shutdown` is in nanoseconds. */
  datatype Settings = Settings(
    api: Option<APICfg>,
    admin: Option<AdminCfg>,
    openTelemetry: Option<OTLConfig>,
    accessLog: AccessLogCfg,
    shutdown: int)

  /** `DefaultConfig`. */
  function DefaultConfig(): Settings {
    Settings(Some(APICfg(DefaultAPIAddr, "")), Some(AdminCfg(DefaultAdminAddr, "")), None,
             AccessLogCfg(false, Consts.DefaultAccessLogPattern), 0)
  }

  /** `Validate`: the error text, or `None`. */
  function ValidationError(c: Settings): Option<string> {
    if c.api.None? && c.admin.None? then Some(EmptyListenersError) else None
  }

  /** `init`: an API listener without an admin listener gets the default admin address. */
  function Initialized(c: Settings): Settings {
    if c.api.Some? && c.admin.None? then c.(admin := Some(AdminCfg(DefaultAdminAddr, ""))) else c
  }

  /** `Validate` fails exactly when neither listener is configured. */
  lemma ValidateIff(c: Settings)
    ensures ValidationError(c).Some? <==> c.api.None? && c.admin.None?
    ensures ValidationError(c).Some? ==> ValidationError(c).value == EmptyListenersError
  {
  }

  /**
   * `init` changes at most the admin listener, and only to give an API-only
   * configuration the default admin address; it leaves a configuration
   * without API listener as it is.
   */
  lemma InitEffect(c: Settings)
    ensures Initialized(c) == c.(admin := Initialized(c).admin)
    ensures Initialized(c).admin == if c.api.Some? && c.admin.None? then Some(AdminCfg(DefaultAdminAddr, "")) else c.admin
    ensures c.api.None? ==> Initialized(c) == c
  {
  }

  /** `init` twice is `init` once, and it never turns a valid configuration invalid. */
  lemma InitIdempotent(c: Settings)
    ensures Initialized(Initialized(c)) == Initialized(c)
    ensures ValidationError(c).None? ==> ValidationError(Initialized(c)).None?
  {
  }

  /** After `init`, a configuration with an API listener validates and has an admin listener. */
  lemma ValidAfterInit(c: Settings)
    requires c.api.Some?
    ensures ValidationError(Initialized(c)).None? && Initialized(c).admin.Some?
  {
  }

  /** The default configuration listens on both addresses, logs with the default pattern, logging off. */
  lemma DefaultConfigFacts()
    ensures var d := DefaultConfig();
            && d.api == Some(APICfg(DefaultAPIAddr, "")) && d.admin == Some(AdminCfg(DefaultAdminAddr, ""))
            && d.accessLog.pattern == Consts.DefaultAccessLogPattern && !d.accessLog.enabled
            && ValidationError(d).None? && Initialized(d) == d
  {
  }

  /** A `*Config` the server holds and `init` updates in place. */
  class Config {
    var settings: Settings

    /** `DefaultConfig` returns a new configuration. */
    constructor Default()
      ensures settings == DefaultConfig()
    {
      settings := DefaultConfig();
    }

    constructor (s: Settings)
      ensures settings == s
    {
      settings := s;
    }

    /** `init`, assigning the admin field in place. */
    method Init()
      modifies this
      ensures settings == Initialized(old(settings))
    {
      if settings.api.Some? && settings.admin.None? {
        settings := settings.(admin := Some(AdminCfg(DefaultAdminAddr, "")));
      }
    }

    function Validate(): Option<string>
      reads this
    {
      ValidationError(settings)
    }
  }
}

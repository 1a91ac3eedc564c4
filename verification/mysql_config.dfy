/** The MySQL client's configuration: `init` fills in defaults, `validate` checks the credentials. */
module MysqlConfig {
  import opened Wrappers

  const NanosPerMilli := 1_000_000
  const NanosPerSecond := 1_000_000_000

  const DefaultAddr := "127.0.0.1:3306"
  const DefaultDialTimeout := 3100 * NanosPerMilli
  const DefaultReadTimeout := 5 * NanosPerSecond
  const DefaultWriteTimeout := 5 * NanosPerSecond
  const DefaultMaxOpenConns := 0
  const DefaultMaxIdleConns := 16
  const DefaultCharset := "utf8"

  const EmptyUserError := "user can't be empty"
  const EmptyPasswordError := "password can't be empty"
  const EmptyDBNameError := "dbname can't be empty"

  /** `datastore.ClientTLSConfig`, without the certificate bytes read from disk. */
  datatype ClientTLSConfig = ClientTLSConfig(caFile: string, certFile: string, keyFile: string, insecureSkipVerify: bool)

  /** A MySQL `Config`; durations are in nanoseconds, a nil TLS pointer is `None`. */
  class Config {
    var dialTimeout: int
    var readTimeout: int
    var writeTimeout: int
    var addr: string
    var dbName: string
    var user: string
    var password: string
    var connMaxLifetime: int
    var connMaxIdleTime: int
    var maxOpenConns: int
    var maxIdleConns: int
    var enableParseTime: bool
    var charset: string
    var tls: Option<ClientTLSConfig>

    /** The zero `Config{}`. */
    constructor ()
      ensures addr == "" && dbName == "" && user == "" && password == "" && charset == ""
      ensures dialTimeout == 0 && readTimeout == 0 && writeTimeout == 0
      ensures connMaxLifetime == 0 && connMaxIdleTime == 0 && maxOpenConns == 0 && maxIdleConns == 0
      ensures !enableParseTime && tls == None
    {
      dialTimeout, readTimeout, writeTimeout := 0, 0, 0;
      addr, dbName, user, password := "", "", "", "";
      connMaxLifetime, connMaxIdleTime := 0, 0;
      maxOpenConns, maxIdleConns := 0, 0;
      enableParseTime := false;
      charset := "";
      tls := None;
    }

    /** `init`: seven fields overwritten with the defaults, whatever they held. */
    method Init()
      modifies this`addr, this`dialTimeout, this`readTimeout, this`writeTimeout,
               this`maxOpenConns, this`maxIdleConns, this`charset
      ensures addr == DefaultAddr && dialTimeout == DefaultDialTimeout
      ensures readTimeout == DefaultReadTimeout && writeTimeout == DefaultWriteTimeout
      ensures maxOpenConns == DefaultMaxOpenConns && maxIdleConns == DefaultMaxIdleConns
      ensures charset == DefaultCharset
      ensures Validate() == old(Validate())
    {
      addr := DefaultAddr;
      dialTimeout := DefaultDialTimeout;
      readTimeout := DefaultReadTimeout;
      writeTimeout := DefaultWriteTimeout;
      maxOpenConns := DefaultMaxOpenConns;
      maxIdleConns := DefaultMaxIdleConns;
      charset := DefaultCharset;
    }

    /** `validate`: the first empty credential, in the order user, password, database name. */
    function Validate(): Option<string>
      reads this
    {
      CheckCredentials(user, password, dbName)
    }
  }

  /** The checks of `validate`, on the three fields they read. */
  function CheckCredentials(user: string, password: string, dbName: string): Option<string> {
    if user == "" then Some(EmptyUserError)
    else if password == "" then Some(EmptyPasswordError)
    else if dbName == "" then Some(EmptyDBNameError)
    else None
  }

  /** `validate` passes exactly when all three credentials are set, and otherwise names the first missing one. */
  lemma CheckCredentialsIff(user: string, password: string, dbName: string)
    ensures CheckCredentials(user, password, dbName).None? <==> user != "" && password != "" && dbName != ""
    ensures user == "" ==> CheckCredentials(user, password, dbName) == Some(EmptyUserError)
    ensures user != "" && password == "" ==> CheckCredentials(user, password, dbName) == Some(EmptyPasswordError)
    ensures user != "" && password != "" && dbName == ""
            ==> CheckCredentials(user, password, dbName) == Some(EmptyDBNameError)
  {
  }

  /** The configuration test's sequence: after `init`, setting the credentials one by one clears the errors in order. */
  method ValidateSequence() returns (errors: seq<Option<string>>, maxIdle: int)
    ensures errors == [Some(EmptyUserError), Some(EmptyPasswordError), Some(EmptyDBNameError), None]
    ensures maxIdle == DefaultMaxIdleConns
  {
    var cfg := new Config();
    cfg.Init();
    var e1 := cfg.Validate();
    cfg.user := "test";
    var e2 := cfg.Validate();
    cfg.password := "test";
    var e3 := cfg.Validate();
    cfg.dbName := "test";
    var e4 := cfg.Validate();
    errors, maxIdle := [e1, e2, e3, e4], cfg.maxIdleConns;
  }
}

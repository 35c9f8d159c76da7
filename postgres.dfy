/** `get_postgres_connection` and `get_postgres_connection_async`: reading the
    connection settings from the environment, rejecting a missing required
    variable, and building the libpq `conninfo` string handed to psycopg. The
    connect call itself is foreign and is modelled by the arguments it gets. */
module PostgresConnection {
  import opened Results
  import opened Environment

  /** The six values the connection string is built from, defaults applied. */
  datatype Settings = Settings(host: string, port: string, dbname: string, user: string, password: string, sslmode: string)

  /** The ValueError raised for a required variable, naming that variable. */
  datatype ConfigError = MissingVariable(name: string)

  /** The row factory passed to the driver: the blocking helper asks for
      `dict_row`, the async helper passes none. */
  datatype RowFactory = DictRow | DriverDefault

  /** The driver call each helper ends in, with the arguments it receives. */
  datatype ConnectCall = ConnectCall(conninfo: string, rowFactory: RowFactory)

  const DefaultHost := "localhost"
  const DefaultPort := "5432"
  const DefaultSslMode := "prefer"

  /** A required variable the helpers reject: unset, or set to "". */
  predicate Missing(env: Env, name: string)
  {
    name !in env || env[name] == ""
  }

  /** The environment reads and the three required-variable checks of the
      blocking helper, in source order. */
  function ResolveSettings(env: Env): Result<Settings, ConfigError>
  {
    var host := GetEnvOr(env, "DB_HOST", DefaultHost);
    var port := GetEnvOr(env, "DB_PORT", DefaultPort);
    var database := GetEnv(env, "DB_NAME");
    var user := GetEnv(env, "DB_USER");
    var password := GetEnv(env, "DB_PASSWORD");
    var sslmode := GetEnvOr(env, "DB_SSLMODE", DefaultSslMode);
    if !Truthy(database) then Failure(MissingVariable("DB_NAME"))
    else if !Truthy(user) then Failure(MissingVariable("DB_USER"))
    else if !Truthy(password) then Failure(MissingVariable("DB_PASSWORD"))
    else Success(Settings(host, port, database.value, user.value, password.value, sslmode))
  }

  /** The f-string that becomes the libpq connection string: six `key=value`
      fields separated by single spaces. Values are inserted verbatim, without
      quoting. */
  function ConnInfo(s: Settings): string
  {
    ("host=" + s.host) + " " + (("port=" + s.port) + " " + (("dbname=" + s.dbname) + " "
      + (("user=" + s.user) + " " + (("password=" + s.password) + " " + ("sslmode=" + s.sslmode)))))
  }

  /** `get_postgres_connection`, up to the `psycopg.connect` call. */
  function GetPostgresConnection(env: Env): Result<ConnectCall, ConfigError>
  {
    var settings :- ResolveSettings(env);
    Success(ConnectCall(ConnInfo(settings), DictRow))
  }

  /** `get_postgres_connection_async`, up to the `AsyncConnection.connect`
      call; the source repeats the reads, checks and format of the blocking
      helper, and so does this definition. */
  function GetPostgresConnectionAsync(env: Env): Result<ConnectCall, ConfigError>
  {
    var host := GetEnvOr(env, "DB_HOST", "localhost");
    var port := GetEnvOr(env, "DB_PORT", "5432");
    var database := GetEnv(env, "DB_NAME");
    var user := GetEnv(env, "DB_USER");
    var password := GetEnv(env, "DB_PASSWORD");
    var sslmode := GetEnvOr(env, "DB_SSLMODE", "prefer");
    if !Truthy(database) then Failure(MissingVariable("DB_NAME"))
    else if !Truthy(user) then Failure(MissingVariable("DB_USER"))
    else if !Truthy(password) then Failure(MissingVariable("DB_PASSWORD"))
    else
      var conninfo := ("host=" + host) + " " + (("port=" + port) + " " + (("dbname=" + database.value) + " "
        + (("user=" + user.value) + " " + (("password=" + password.value) + " " + ("sslmode=" + sslmode)))));
      Success(ConnectCall(conninfo, DriverDefault))
  }

  // ---------------------------------------------------------------------------
  // Properties of the configuration checks

  /** The three checks run in the order DB_NAME, DB_USER, DB_PASSWORD, and the
      first missing one decides the error; a connect call is produced only when
      none is missing. */
  lemma RequiredVariablesCheckedInOrder(env: Env)
    ensures GetPostgresConnection(env) == Failure(MissingVariable("DB_NAME"))
      <==> Missing(env, "DB_NAME")
    ensures GetPostgresConnection(env) == Failure(MissingVariable("DB_USER"))
      <==> !Missing(env, "DB_NAME") && Missing(env, "DB_USER")
    ensures GetPostgresConnection(env) == Failure(MissingVariable("DB_PASSWORD"))
      <==> !Missing(env, "DB_NAME") && !Missing(env, "DB_USER") && Missing(env, "DB_PASSWORD")
    ensures GetPostgresConnection(env).Success?
      <==> !Missing(env, "DB_NAME") && !Missing(env, "DB_USER") && !Missing(env, "DB_PASSWORD")
  {
  }

  /** On success the settings hold the required values as given and the
      optional ones or their defaults ("localhost", "5432", "prefer"). */
  lemma SettingsDefaults(env: Env)
    requires ResolveSettings(env).Success?
    ensures var s := ResolveSettings(env).value;
      && s.host == (if "DB_HOST" in env then env["DB_HOST"] else "localhost")
      && s.port == (if "DB_PORT" in env then env["DB_PORT"] else "5432")
      && s.sslmode == (if "DB_SSLMODE" in env then env["DB_SSLMODE"] else "prefer")
      && s.dbname == env["DB_NAME"] && s.user == env["DB_USER"] && s.password == env["DB_PASSWORD"]
  {
  }

  /** For a required variable, set-but-empty is the same as unset: both are
      rejected by the falsy-string check, with the same error. */
  lemma EmptyRequiredIsMissing(env: Env, name: string)
    requires name == "DB_NAME" || name == "DB_USER" || name == "DB_PASSWORD"
    ensures GetPostgresConnection(env[name := ""]) == GetPostgresConnection(env - {name})
    ensures GetPostgresConnection(env[name := ""]).Failure?
  {
  }

  /** For a defaulted variable, set-but-empty differs from unset: `os.getenv`
      returns the empty value, so the default applies only when the variable
      is absent. */
  lemma EmptyOptionalIsKept(env: Env)
    requires ResolveSettings(env).Success?
    ensures ResolveSettings(env["DB_HOST" := ""]) == Success(ResolveSettings(env).value.(host := ""))
    ensures ResolveSettings(env - {"DB_HOST"}) == Success(ResolveSettings(env).value.(host := "localhost"))
    ensures ResolveSettings(env["DB_PORT" := ""]) == Success(ResolveSettings(env).value.(port := ""))
    ensures ResolveSettings(env - {"DB_PORT"}) == Success(ResolveSettings(env).value.(port := "5432"))
    ensures ResolveSettings(env["DB_SSLMODE" := ""]) == Success(ResolveSettings(env).value.(sslmode := ""))
    ensures ResolveSettings(env - {"DB_SSLMODE"}) == Success(ResolveSettings(env).value.(sslmode := "prefer"))
  {
  }

  /** The async helper applies the same defaults and checks and builds the
      same connection string; it differs only in the row factory. */
  lemma AsyncMatchesBlocking(env: Env)
    ensures GetPostgresConnectionAsync(env) ==
      match GetPostgresConnection(env)
      case Failure(e) => Failure(e)
      case Success(call) => Success(ConnectCall(call.conninfo, DriverDefault))
  {
    if ResolveSettings(env).Success? {
      var s := ResolveSettings(env).value;
      assert GetPostgresConnectionAsync(env).value.conninfo == ConnInfo(s);
    }
  }

  // ---------------------------------------------------------------------------
  // Reading a connection string back: the partner of ConnInfo

  /** Splits at every space, as `str.split(' ')` does. */
  function SplitOnSpace(s: string): (r: seq<string>)
    ensures |r| >= 1
    ensures JoinWithSpace(r) == s
    ensures forall i :: 0 <= i < |r| ==> ' ' !in r[i]
    decreases |s|
  {
    if s == [] then [""]
    else
      var rest := SplitOnSpace(s[1..]);
      if s[0] == ' ' then [""] + rest
      else [[s[0]] + rest[0]] + rest[1..]
  }

  /** Joins with single spaces, as `' '.join(parts)` does. */
  function JoinWithSpace(parts: seq<string>): string
    requires |parts| >= 1
    decreases |parts|
  {
    if |parts| == 1 then parts[0] else parts[0] + " " + JoinWithSpace(parts[1..])
  }

  /** The value of a `key=value` field. */
  function FieldValue(key: string, field: string): Option<string>
  {
    if |key| + 1 <= |field| && field[..|key| + 1] == key + "=" then Some(field[|key| + 1..]) else None
  }

  /** Reads the six fields back out of a connection string laid out as ConnInfo lays it out. */
  function ParseConnInfo(conninfo: string): Option<Settings>
  {
    var fields := SplitOnSpace(conninfo);
    if |fields| != 6 then None
    else
      var host :- FieldValue("host", fields[0]);
      var port :- FieldValue("port", fields[1]);
      var dbname :- FieldValue("dbname", fields[2]);
      var user :- FieldValue("user", fields[3]);
      var password :- FieldValue("password", fields[4]);
      var sslmode :- FieldValue("sslmode", fields[5]);
      Some(Settings(host, port, dbname, user, password, sslmode))
  }

  predicate HasNoSpaces(s: Settings)
  {
    && ' ' !in s.host && ' ' !in s.port && ' ' !in s.dbname
    && ' ' !in s.user && ' ' !in s.password && ' ' !in s.sslmode
  }

  lemma {:induction false} SplitAfterWord(p: string, rest: string)
    requires ' ' !in p
    ensures SplitOnSpace(p + " " + rest) == [p] + SplitOnSpace(rest)
    decreases |p|
  {
    if p == [] {
      assert p + " " + rest == [' '] + rest;
    } else {
      var s := p + " " + rest;
      assert s[1..] == p[1..] + " " + rest;
      SplitAfterWord(p[1..], rest);
      assert [s[0]] + p[1..] == p;
    }
  }

  lemma {:induction false} SplitOfWord(p: string)
    requires ' ' !in p
    ensures SplitOnSpace(p) == [p]
    decreases |p|
  {
    if p != [] {
      assert p[1..] == p[1..];
      SplitOfWord(p[1..]);
      assert [p[0]] + p[1..] == p;
    }
  }

  lemma FieldValueOf(key: string, value: string)
    ensures FieldValue(key, key + "=" + value) == Some(value)
  {
    var f := key + "=" + value;
    assert f[..|key| + 1] == key + "=";
    assert f[|key| + 1..] == value;
  }

  lemma SplitSixWords(f0: string, f1: string, f2: string, f3: string, f4: string, f5: string)
    requires ' ' !in f0 && ' ' !in f1 && ' ' !in f2 && ' ' !in f3 && ' ' !in f4 && ' ' !in f5
    ensures SplitOnSpace(f0 + " " + (f1 + " " + (f2 + " " + (f3 + " " + (f4 + " " + f5)))))
      == [f0, f1, f2, f3, f4, f5]
  {
    SplitOfWord(f5);
    SplitAfterWord(f4, f5);
    SplitAfterWord(f3, f4 + " " + f5);
    SplitAfterWord(f2, f3 + " " + (f4 + " " + f5));
    SplitAfterWord(f1, f2 + " " + (f3 + " " + (f4 + " " + f5)));
    SplitAfterWord(f0, f1 + " " + (f2 + " " + (f3 + " " + (f4 + " " + f5))));
  }

  /** The connection string lists the six settings as space-separated fields. */
  lemma ConnInfoFields(s: Settings)
    requires HasNoSpaces(s)
    ensures SplitOnSpace(ConnInfo(s)) == ["host=" + s.host, "port=" + s.port, "dbname=" + s.dbname,
                                          "user=" + s.user, "password=" + s.password, "sslmode=" + s.sslmode]
  {
    SplitSixWords("host=" + s.host, "port=" + s.port, "dbname=" + s.dbname,
                  "user=" + s.user, "password=" + s.password, "sslmode=" + s.sslmode);
  }

  /** The connection string carries each setting unchanged whenever no value
      contains a space. */
  lemma ConnInfoRoundTrip(s: Settings)
    requires HasNoSpaces(s)
    ensures ParseConnInfo(ConnInfo(s)) == Some(s)
  {
    ConnInfoFields(s);
    FieldValueOf("host", s.host);
    FieldValueOf("port", s.port);
    FieldValueOf("dbname", s.dbname);
    FieldValueOf("user", s.user);
    FieldValueOf("password", s.password);
    FieldValueOf("sslmode", s.sslmode);
  }

  /** Because values are not quoted, a value holding a space can masquerade as
      further fields: two different configurations give the same string. */
  lemma ConnInfoIsAmbiguousWithSpaces()
    ensures exists a: Settings, b: Settings :: a != b && ConnInfo(a) == ConnInfo(b)
  {
    var a := Settings("db", "5432", "app", "u", "x" + " sslmode=" + "disable", "prefer");
    var b := Settings("db", "5432", "app", "u", "x", "disable" + " sslmode=" + "prefer");
    PasswordSwallowsSslMode("x", "disable", "prefer");
    assert |a.sslmode| != |b.sslmode|;
    assert ConnInfo(a) == ConnInfo(b);
  }

  /** A password ending in ` sslmode=m1` reads like the password alone
      followed by an sslmode field that carries the real one along. */
  lemma PasswordSwallowsSslMode(w: string, m1: string, m2: string)
    ensures ("password=" + (w + " sslmode=" + m1)) + " " + ("sslmode=" + m2)
         == ("password=" + w) + " " + ("sslmode=" + (m1 + " sslmode=" + m2))
  {
  }

  /** End to end: when the helper succeeds and no value contains a space, the
      connection string it hands to the driver reads back as the environment's
      values with the documented defaults. */
  lemma ConnectCallCarriesEnvironment(env: Env)
    requires GetPostgresConnection(env).Success?
    requires forall k :: k in env && k in {"DB_HOST", "DB_PORT", "DB_NAME", "DB_USER", "DB_PASSWORD", "DB_SSLMODE"} ==> ' ' !in env[k]
    ensures GetPostgresConnection(env).value.rowFactory == DictRow
    ensures ParseConnInfo(GetPostgresConnection(env).value.conninfo) == Some(Settings(
      GetEnvOr(env, "DB_HOST", "localhost"), GetEnvOr(env, "DB_PORT", "5432"),
      env["DB_NAME"], env["DB_USER"], env["DB_PASSWORD"], GetEnvOr(env, "DB_SSLMODE", "prefer")))
  {
    var s := ResolveSettings(env).value;
    SettingsDefaults(env);
    ConnInfoRoundTrip(s);
  }
}

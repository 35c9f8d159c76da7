/** `get_qdrant_connection` and `get_qdrant_connection_async`: reading the
    client settings from the environment, parsing the flags and integers, and
    choosing among the three ways the `QdrantClient` constructor is called.
    The constructor is foreign: the model returns the arguments it is given,
    and whether it raises is a parameter. */
module QdrantConnection {
  import opened Results
  import opened Environment

  /** The keyword arguments of the `QdrantClient(...)` call, one shape per branch.
      `preferGrpc` of the URL form is None where the argument is not passed;
      the gRPC form always passes `prefer_grpc=True`. */
  datatype ClientArgs =
    | UrlArgs(url: string, apiKey: Option<string>, timeout: int, preferGrpc: Option<bool>)
    | GrpcArgs(host: string, grpcPort: int, apiKey: Option<string>, timeout: int)
    | HttpArgs(host: string, port: int, apiKey: Option<string>, https: bool, timeout: int)

  /** How a call fails. `InvalidInteger` is the ValueError of an `int()` that
      runs before the `try` and escapes unchanged; `ConnectionFailure` is any
      exception raised inside the `try`, re-raised as UnexpectedResponse. */
  datatype QdrantError = InvalidInteger(variable: string) | ConnectionFailure

  /** The blocking helper or its async twin. */
  datatype Variant = Blocking | Async

  /** What the environment reads before the `try` produce. */
  datatype QdrantSettings = QdrantSettings(
    url: Option<string>, host: string, port: int, apiKey: Option<string>,
    https: bool, timeout: int, grpcPort: Option<string>, preferGrpc: bool)

  const DefaultHost := "localhost"
  const DefaultPort := "6333"
  const DefaultTimeout := "60"

  /** `int(text)` for the variable `name`, outside any `try`. */
  function IntSetting(text: string, name: string): Result<int, QdrantError>
  {
    match ParseInt(text)
    case Some(n) => Success(n)
    case None => Failure(InvalidInteger(name))
  }

  /** The reads before the `try`, in source order: the port is parsed before
      the timeout, and both before any branch is taken. */
  function ReadSettings(env: Env): Result<QdrantSettings, QdrantError>
  {
    var url := GetEnv(env, "QDRANT_URL");
    var host := GetEnvOr(env, "QDRANT_HOST", DefaultHost);
    var port :- IntSetting(GetEnvOr(env, "QDRANT_PORT", DefaultPort), "QDRANT_PORT");
    var apiKey := GetEnv(env, "QDRANT_API_KEY");
    var https := IsTrueFlag(GetEnvOr(env, "QDRANT_HTTPS", "false"));
    var timeout :- IntSetting(GetEnvOr(env, "QDRANT_TIMEOUT", DefaultTimeout), "QDRANT_TIMEOUT");
    var grpcPort := GetEnv(env, "QDRANT_GRPC_PORT");
    var preferGrpc := IsTrueFlag(GetEnvOr(env, "QDRANT_PREFER_GRPC", "false"));
    Success(QdrantSettings(url, host, port, apiKey, https, timeout, grpcPort, preferGrpc))
  }

  /** The if/elif/else inside the `try` of the blocking helper. The gRPC port
      is parsed here, so a malformed one is caught and reported as a
      connection failure. */
  function ChooseArgs(s: QdrantSettings): Result<ClientArgs, QdrantError>
  {
    if Truthy(s.url) then
      Success(UrlArgs(s.url.value, s.apiKey, s.timeout, None))
    else if s.preferGrpc && Truthy(s.grpcPort) then
      match ParseInt(s.grpcPort.value)
      case Some(g) => Success(GrpcArgs(s.host, g, s.apiKey, s.timeout))
      case None => Failure(ConnectionFailure)
    else
      Success(HttpArgs(s.host, s.port, s.apiKey, s.https, s.timeout))
  }

  /** The constructor arguments the blocking helper arrives at, before the call. */
  function ClientArgsFor(env: Env): Result<ClientArgs, QdrantError>
  {
    var settings :- ReadSettings(env);
    ChooseArgs(settings)
  }

  /** The constructor arguments the async helper arrives at. The source
      repeats the reads and the branch of the blocking helper, passing
      `prefer_grpc=False` on the URL form, and so does this definition. */
  function AsyncClientArgs(env: Env): Result<ClientArgs, QdrantError>
  {
    var url := GetEnv(env, "QDRANT_URL");
    var host := GetEnvOr(env, "QDRANT_HOST", "localhost");
    var port :- IntSetting(GetEnvOr(env, "QDRANT_PORT", "6333"), "QDRANT_PORT");
    var apiKey := GetEnv(env, "QDRANT_API_KEY");
    var https := IsTrueFlag(GetEnvOr(env, "QDRANT_HTTPS", "false"));
    var timeout :- IntSetting(GetEnvOr(env, "QDRANT_TIMEOUT", "60"), "QDRANT_TIMEOUT");
    var grpcPort := GetEnv(env, "QDRANT_GRPC_PORT");
    var preferGrpc := IsTrueFlag(GetEnvOr(env, "QDRANT_PREFER_GRPC", "false"));
    if Truthy(url) then
      Success(UrlArgs(url.value, apiKey, timeout, Some(false)))
    else if preferGrpc && Truthy(grpcPort) then
      match ParseInt(grpcPort.value)
      case Some(g) => Success(GrpcArgs(host, g, apiKey, timeout))
      case None => Failure(ConnectionFailure)
    else
      Success(HttpArgs(host, port, apiKey, https, timeout))
  }

  /** The constructor arguments of either helper. */
  function ArgsFor(env: Env, variant: Variant): Result<ClientArgs, QdrantError>
  {
    match variant
    case Blocking => ClientArgsFor(env)
    case Async => AsyncClientArgs(env)
  }

  /** `get_qdrant_connection`; `constructorRaises` says for which arguments
      the foreign constructor raises (inside the `try`). */
  function GetQdrantConnection(env: Env, constructorRaises: ClientArgs -> bool): Result<ClientArgs, QdrantError>
  {
    var args :- ClientArgsFor(env);
    if constructorRaises(args) then Failure(ConnectionFailure) else Success(args)
  }

  /** `get_qdrant_connection_async`. */
  function GetQdrantConnectionAsync(env: Env, constructorRaises: ClientArgs -> bool): Result<ClientArgs, QdrantError>
  {
    var args :- AsyncClientArgs(env);
    if constructorRaises(args) then Failure(ConnectionFailure) else Success(args)
  }

  // ---------------------------------------------------------------------------
  // The two helpers make the same choice

  /** The async helper sets `prefer_grpc=False` on the URL form. */
  function AsAsync(args: ClientArgs): ClientArgs
  {
    if args.UrlArgs? then args.(preferGrpc := Some(false)) else args
  }

  /** The async helper makes the same three-way choice with the same
      arguments and the same failures; only its URL form differs, by passing
      `prefer_grpc=False` where the blocking helper passes nothing. */
  lemma AsyncMakesSameChoice(env: Env)
    ensures AsyncClientArgs(env) ==
      match ClientArgsFor(env)
      case Success(args) => Success(AsAsync(args))
      case Failure(e) => Failure(e)
    ensures ClientArgsFor(env).Success? && ClientArgsFor(env).value.UrlArgs? ==>
      ClientArgsFor(env).value.preferGrpc == None
  {
    if ReadSettings(env).Success? {
      SettingsFields(env);
    }
  }

  // ---------------------------------------------------------------------------
  // Reading the settings

  /** The string and flag settings read before the `try`. */
  lemma SettingsFields(env: Env)
    requires ReadSettings(env).Success?
    ensures var s := ReadSettings(env).value;
      && s.url == GetEnv(env, "QDRANT_URL")
      && s.host == GetEnvOr(env, "QDRANT_HOST", "localhost")
      && s.apiKey == GetEnv(env, "QDRANT_API_KEY")
      && s.https == IsTrueFlag(GetEnvOr(env, "QDRANT_HTTPS", "false"))
      && s.grpcPort == GetEnv(env, "QDRANT_GRPC_PORT")
      && s.preferGrpc == IsTrueFlag(GetEnvOr(env, "QDRANT_PREFER_GRPC", "false"))
  {
  }

  /** Each setting left unset takes its default, whatever else is set: host
      "localhost", port 6333, timeout 60, HTTPS and gRPC preference off, no
      URL, key or gRPC port. A port or timeout that is set is its parsed value. */
  lemma SettingDefaults(env: Env)
    requires ReadSettings(env).Success?
    ensures "QDRANT_HOST" !in env ==> ReadSettings(env).value.host == "localhost"
    ensures "QDRANT_PORT" !in env ==> ReadSettings(env).value.port == 6333
    ensures "QDRANT_PORT" in env ==> ParseInt(env["QDRANT_PORT"]) == Some(ReadSettings(env).value.port)
    ensures "QDRANT_TIMEOUT" !in env ==> ReadSettings(env).value.timeout == 60
    ensures "QDRANT_TIMEOUT" in env ==> ParseInt(env["QDRANT_TIMEOUT"]) == Some(ReadSettings(env).value.timeout)
    ensures "QDRANT_HTTPS" !in env ==> !ReadSettings(env).value.https
    ensures "QDRANT_PREFER_GRPC" !in env ==> !ReadSettings(env).value.preferGrpc
    ensures "QDRANT_URL" !in env ==> ReadSettings(env).value.url == None
    ensures "QDRANT_API_KEY" !in env ==> ReadSettings(env).value.apiKey == None
    ensures "QDRANT_GRPC_PORT" !in env ==> ReadSettings(env).value.grpcPort == None
  {
    SettingsFields(env);
    DefaultPortParses();
    DefaultTimeoutParses();
    DefaultFlagIsFalse();
  }

  /** The port and the timeout are parsed before the `try`: a malformed one
      fails with ValueError whatever else is configured (even with a URL set),
      and the port is looked at first. */
  lemma MalformedIntegersFailBeforeBranch(env: Env, variant: Variant)
    ensures ParseInt(GetEnvOr(env, "QDRANT_PORT", "6333")) == None ==>
      ArgsFor(env, variant) == Failure(InvalidInteger("QDRANT_PORT"))
    ensures (ParseInt(GetEnvOr(env, "QDRANT_PORT", "6333")).Some?
             && ParseInt(GetEnvOr(env, "QDRANT_TIMEOUT", "60")) == None) ==>
      ArgsFor(env, variant) == Failure(InvalidInteger("QDRANT_TIMEOUT"))
  {
  }

  /** Unlike an unset port, which means 6333, a port set to the empty string
      is handed to `int()` and fails before the `try`. */
  lemma EmptyPortIsNotDefaulted(env: Env, variant: Variant)
    ensures ArgsFor(env["QDRANT_PORT" := ""], variant) == Failure(InvalidInteger("QDRANT_PORT"))
  {
    BlankIsNotAnInt("");
  }

  // ---------------------------------------------------------------------------
  // The three-way choice

  /** Whether the URL variable selects the URL form. */
  predicate HasUrl(env: Env)
  {
    "QDRANT_URL" in env && env["QDRANT_URL"] != ""
  }

  /** Whether the gRPC flag and a gRPC port are both given. */
  predicate WantsGrpc(env: Env)
  {
    IsTrueFlag(GetEnvOr(env, "QDRANT_PREFER_GRPC", "false")) && "QDRANT_GRPC_PORT" in env && env["QDRANT_GRPC_PORT"] != ""
  }

  /** The gRPC branch is taken and its port does not parse. */
  predicate GrpcPortMalformed(env: Env)
  {
    !HasUrl(env) && WantsGrpc(env) && ParseInt(env["QDRANT_GRPC_PORT"]) == None
  }

  /** A non-empty URL selects the URL form, whatever host, port, HTTPS and
      gRPC settings say. */
  lemma UrlFormWins(env: Env, variant: Variant, port: int, timeout: int)
    requires ParseInt(GetEnvOr(env, "QDRANT_PORT", "6333")) == Some(port)
    requires ParseInt(GetEnvOr(env, "QDRANT_TIMEOUT", "60")) == Some(timeout)
    requires HasUrl(env)
    ensures ArgsFor(env, variant) == Success(UrlArgs(env["QDRANT_URL"], GetEnv(env, "QDRANT_API_KEY"), timeout,
      if variant == Async then Some(false) else None))
  {
    AsyncMakesSameChoice(env);
  }

  /** Without a URL, the flag and a non-empty gRPC port select the gRPC form;
      its port is parsed here, and a malformed one is a connection failure. */
  lemma GrpcFormChosen(env: Env, variant: Variant, port: int, timeout: int)
    requires ParseInt(GetEnvOr(env, "QDRANT_PORT", "6333")) == Some(port)
    requires ParseInt(GetEnvOr(env, "QDRANT_TIMEOUT", "60")) == Some(timeout)
    requires !HasUrl(env) && WantsGrpc(env)
    ensures ArgsFor(env, variant) ==
      match ParseInt(env["QDRANT_GRPC_PORT"])
      case Some(g) => Success(GrpcArgs(GetEnvOr(env, "QDRANT_HOST", "localhost"), g, GetEnv(env, "QDRANT_API_KEY"), timeout))
      case None => Failure(ConnectionFailure)
  {
    AsyncMakesSameChoice(env);
  }

  /** Otherwise the HTTP form, with host, port, HTTPS flag and timeout. */
  lemma HttpFormOtherwise(env: Env, variant: Variant, port: int, timeout: int)
    requires ParseInt(GetEnvOr(env, "QDRANT_PORT", "6333")) == Some(port)
    requires ParseInt(GetEnvOr(env, "QDRANT_TIMEOUT", "60")) == Some(timeout)
    requires !HasUrl(env) && !WantsGrpc(env)
    ensures ArgsFor(env, variant) == Success(HttpArgs(GetEnvOr(env, "QDRANT_HOST", "localhost"), port,
      GetEnv(env, "QDRANT_API_KEY"), IsTrueFlag(GetEnvOr(env, "QDRANT_HTTPS", "false")), timeout))
  {
    AsyncMakesSameChoice(env);
  }

  /** The gRPC form is chosen only when there is no URL, the flag is set and
      a non-empty gRPC port is given. */
  lemma GrpcFormOnlyWhenWanted(env: Env, variant: Variant)
    requires ArgsFor(env, variant).Success? && ArgsFor(env, variant).value.GrpcArgs?
    ensures !HasUrl(env) && WantsGrpc(env)
  {
    AsyncMakesSameChoice(env);
    SettingsFields(env);
    assert ChooseArgs(ReadSettings(env).value).value.GrpcArgs?;
  }

  /** With nothing configured the HTTP form is chosen with host "localhost",
      port 6333, no HTTPS and a 60-second timeout. */
  lemma DefaultsWhenUnset(env: Env, variant: Variant)
    requires "QDRANT_URL" !in env && "QDRANT_HOST" !in env && "QDRANT_PORT" !in env
    requires "QDRANT_HTTPS" !in env && "QDRANT_TIMEOUT" !in env && "QDRANT_PREFER_GRPC" !in env
    ensures ArgsFor(env, variant) == Success(HttpArgs("localhost", 6333, GetEnv(env, "QDRANT_API_KEY"), false, 60))
  {
    DefaultPortParses();
    DefaultTimeoutParses();
    DefaultFlagIsFalse();
    HttpFormOtherwise(env, variant, 6333, 60);
  }

  lemma DefaultPortParses()
    ensures ParseInt("6333") == Some(6333)
  {
    DefaultPortDigits();
    IntRoundTrip(6333);
  }

  lemma DefaultPortDigits()
    ensures IntToString(6333) == "6333"
  {
    assert NatToString(6) == "6";
    assert NatToString(63) == "63";
    assert NatToString(633) == "633";
  }

  lemma DefaultTimeoutParses()
    ensures ParseInt("60") == Some(60)
  {
    IntRoundTrip(60);
    assert NatToString(6) == "6";
    assert NatToString(60) == "60";
  }

  // ---------------------------------------------------------------------------
  // The try/except

  /** A malformed gRPC port is parsed inside the `try`, so it surfaces as a
      connection failure and the constructor is never reached. */
  lemma GrpcPortErrorIsConnectionFailure(env: Env, constructorRaises: ClientArgs -> bool)
    requires ReadSettings(env).Success?
    requires GrpcPortMalformed(env)
    ensures GetQdrantConnection(env, constructorRaises) == Failure(ConnectionFailure)
    ensures GetQdrantConnectionAsync(env, constructorRaises) == Failure(ConnectionFailure)
  {
    SettingsFields(env);
    AsyncMakesSameChoice(env);
    assert ChooseArgs(ReadSettings(env).value) == Failure(ConnectionFailure);
  }

  /** What the `try`/`except` decides, for either helper and whatever the
      constructor does: a ValueError escapes exactly when the reads before
      the `try` fail; a connection failure is reported exactly when the gRPC
      port is malformed on the gRPC branch or the constructor raises on the
      chosen arguments; otherwise the client of those arguments is returned. */
  lemma HelperOutcomes(env: Env, variant: Variant, constructorRaises: ClientArgs -> bool)
    ensures var r := if variant == Blocking then GetQdrantConnection(env, constructorRaises)
                     else GetQdrantConnectionAsync(env, constructorRaises);
      && ((r.Failure? && r.error.InvalidInteger?) <==> ReadSettings(env).Failure?)
      && (r == Failure(ConnectionFailure) <==>
            ReadSettings(env).Success?
            && (GrpcPortMalformed(env)
                || (ArgsFor(env, variant).Success? && constructorRaises(ArgsFor(env, variant).value))))
      && (r.Success? <==> ArgsFor(env, variant).Success? && !constructorRaises(ArgsFor(env, variant).value))
      && (r.Success? ==> r.value == ArgsFor(env, variant).value)
  {
    AsyncMakesSameChoice(env);
    ChoiceFailures(env);
  }

  /** The blocking helper's arguments fail with a ValueError exactly when the
      reads fail, and with a connection failure exactly on a malformed gRPC port. */
  lemma ChoiceFailures(env: Env)
    ensures (ClientArgsFor(env).Failure? && ClientArgsFor(env).error.InvalidInteger?) <==> ReadSettings(env).Failure?
    ensures ClientArgsFor(env) == Failure(ConnectionFailure) <==> ReadSettings(env).Success? && GrpcPortMalformed(env)
  {
    if ReadSettings(env).Success? {
      SettingsFields(env);
    }
  }
}

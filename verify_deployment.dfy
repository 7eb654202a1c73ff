/**
 * verify_deployment.py: checks the environment, the Neo4j URI, the
 * server's health route and its API routes, prints a summary with a
 * troubleshooting hint per failing check, and exits 0 only when every
 * check passed.
 */
module VerifyDeployment {
  import opened PyText
  import opened Oracles
  import opened Neo4jWait
  import ServerApp

  const RequiredVars: seq<string> := ["OPENAI_API_KEY", "NEO4J_USER", "NEO4J_PASSWORD"]
  const OptionalVars: seq<string> := ["MODEL_NAME", "EMBEDDING_MODEL_NAME", "SEMAPHORE_LIMIT"]
  const DefaultNeo4jUri: string := "bolt://neo4j:7687"
  const DefaultNeo4jUser: string := "neo4j"
  const ServerUrl: string := "http://localhost:8000"

  /** The API routes probed, by name, in the order they are probed. */
  const ApiEndpoints: seq<(string, string)> := [("root", "/"), ("healthcheck", "/healthcheck")]

  /** `value is not None and value.strip() != ''`: the variable is
      present and holds a character other than whitespace. */
  function IsSet(env: Env, name: string): (ok: bool)
    ensures ok <==> name in env && !AllSpace(env[name])
  {
    name in env && (TrimEmpty(StripBlanks, env[name]); Strip(env[name]) != [])
  }

  /** `check_environment_variables()`: one entry per required and per
      optional name, true exactly when the variable is present and holds
      a character other than whitespace. */
  method CheckEnvironmentVariables(env: Env) returns (results: map<string, bool>)
    ensures results.Keys == {"OPENAI_API_KEY", "NEO4J_USER", "NEO4J_PASSWORD",
                             "MODEL_NAME", "EMBEDDING_MODEL_NAME", "SEMAPHORE_LIMIT"}
    ensures forall name :: name in results ==> (results[name] <==> name in env && !AllSpace(env[name]))
  {
    results := map[];
    var names := RequiredVars + OptionalVars;
    for i := 0 to |names|
      invariant results.Keys == set name | name in names[..i]
      invariant forall name :: name in results ==> results[name] == IsSet(env, name)
    {
      results := results[names[i] := IsSet(env, names[i])];
    }
    assert names[..|names|] == names;
  }

  /** `all(env_check.get(var, False) for var in required)`: optional
      entries never take part. */
  predicate RequiredEnvOk(results: map<string, bool>) {
    forall v :: v in RequiredVars ==> v in results && results[v]
  }

  /** `check_neo4j_connection(uri, user, password)`: only the scheme of
      the URI is looked at. */
  predicate CheckNeo4jConnection(uri: string, user: string, password: string) {
    StartsWith(uri, BoltScheme)
  }

  /** Every URI this check accepts is one the readiness wait probes at a
      host beginning with `/`, since it cuts six characters, not seven. */
  lemma {:induction false} AcceptedUriProbesSlashHost(uri: string, user: string, password: string)
    requires CheckNeo4jConnection(uri, user, password)
    requires ParseAddress(uri).Success?
    ensures ParseAddress(uri).value.host != [] && ParseAddress(uri).value.host[0] == '/'
  {
    var rest := StripScheme(uri);
    var host := ParseAddress(uri).value.host;
    if ':' in rest {
      assert rest == host + [':'] + rest[|host| + 1..];
    } else {
      assert host == rest;
    }
  }

  /** `check_server_health(url)`: GET `url/healthcheck` returned 200. */
  predicate CheckServerHealth(url: string, fetch: Fetch) {
    StatusOk(fetch(url + "/healthcheck"))
  }

  /** `check_api_endpoints(base_url)`: exactly the keys `root` and
      `healthcheck`, each true when its GET returned status 200 and false
      on any other status or an exception. */
  method CheckApiEndpoints(baseUrl: string, fetch: Fetch) returns (results: map<string, bool>)
    ensures results.Keys == {"root", "healthcheck"}
    ensures results["root"] <==> fetch(baseUrl + "/") == Status(200)
    ensures results["healthcheck"] <==> fetch(baseUrl + "/healthcheck") == Status(200)
  {
    results := map[];
    for i := 0 to |ApiEndpoints|
      invariant results.Keys == set e | e in ApiEndpoints[..i] :: e.0
      invariant forall j :: 0 <= j < i ==> results[ApiEndpoints[j].0] == StatusOk(fetch(baseUrl + ApiEndpoints[j].1))
    {
      var (name, endpoint) := ApiEndpoints[i];
      results := results[name := StatusOk(fetch(baseUrl + endpoint))];
    }
    assert ApiEndpoints[..|ApiEndpoints|] == ApiEndpoints;
  }

  /** `all(api_endpoints.values())` */
  predicate AllTrue(results: map<string, bool>) {
    forall k :: k in results ==> results[k]
  }

  /** The troubleshooting lines, one per failing check. */
  datatype Hint = CheckEnvironment | CheckNeo4jRunning | CheckServerRunning | CheckApiResponding

  datatype Summary = Summary(envOk: bool, neo4jOk: bool, serverHealthy: bool, apiOk: bool)

  predicate OverallOk(s: Summary) {
    s.envOk && s.neo4jOk && s.serverHealthy && s.apiOk
  }

  /** The hints printed after the summary: none when the deployment is
      fine, otherwise exactly one per failing check, in the order the
      checks are listed, never one twice. */
  function Troubleshooting(s: Summary): (hints: seq<Hint>)
    ensures hints == [] <==> OverallOk(s)
    ensures CheckEnvironment in hints <==> !s.envOk
    ensures CheckNeo4jRunning in hints <==> !s.neo4jOk
    ensures CheckServerRunning in hints <==> !s.serverHealthy
    ensures CheckApiResponding in hints <==> !s.apiOk
    ensures forall i, j :: 0 <= i < j < |hints| ==> HintRank(hints[i]) < HintRank(hints[j])
  {
    if OverallOk(s) then []
    else
      (if !s.envOk then [CheckEnvironment] else [])
      + (if !s.neo4jOk then [CheckNeo4jRunning] else [])
      + (if !s.serverHealthy then [CheckServerRunning] else [])
      + (if !s.apiOk then [CheckApiResponding] else [])
  }

  /** The position of each hint in the script's list. */
  function HintRank(h: Hint): nat {
    match h
    case CheckEnvironment => 0
    case CheckNeo4jRunning => 1
    case CheckServerRunning => 2
    case CheckApiResponding => 3
  }

  /** `main()`: the four verdicts, the hints and the exit code. The URI
      is `NEO4J_URI` or `bolt://neo4j:7687` when unset; the server is the
      one on localhost:8000. */
  method RunVerification(env: Env, fetch: Fetch) returns (summary: Summary, hints: seq<Hint>, exitCode: int)
    ensures summary.envOk <==> forall v :: v in RequiredVars ==> v in env && !AllSpace(env[v])
    ensures summary.neo4jOk <==> StartsWith(GetEnv(env, "NEO4J_URI", DefaultNeo4jUri), BoltScheme)
    ensures summary.serverHealthy <==> fetch(ServerUrl + "/healthcheck") == Status(200)
    ensures summary.apiOk <==>
              fetch(ServerUrl + "/") == Status(200) && fetch(ServerUrl + "/healthcheck") == Status(200)
    ensures hints == Troubleshooting(summary)
    ensures exitCode == 0 <==> OverallOk(summary)
    ensures exitCode == 0 || exitCode == 1
  {
    var envCheck := CheckEnvironmentVariables(env);
    var uri := GetEnv(env, "NEO4J_URI", DefaultNeo4jUri);
    var user := GetEnv(env, "NEO4J_USER", DefaultNeo4jUser);
    var password := GetEnv(env, "NEO4J_PASSWORD", "");
    var neo4jOk := CheckNeo4jConnection(uri, user, password);
    var serverHealth := CheckServerHealth(ServerUrl, fetch);
    var apiEndpoints := CheckApiEndpoints(ServerUrl, fetch);
    var requiredEnvOk := RequiredEnvOk(envCheck);
    var apiOk := AllTrue(apiEndpoints);
    assert apiOk <==> apiEndpoints["root"] && apiEndpoints["healthcheck"];
    summary := Summary(requiredEnvOk, neo4jOk, serverHealth, apiOk);
    hints := Troubleshooting(summary);
    exitCode := if OverallOk(summary) then 0 else 1;
  }

  /** With `NEO4J_URI` unset the default URI passes the Neo4j check. */
  lemma UnsetUriPassesNeo4jCheck(env: Env, user: string, password: string)
    requires "NEO4J_URI" !in env
    ensures CheckNeo4jConnection(GetEnv(env, "NEO4J_URI", DefaultNeo4jUri), user, password)
  {
  }

  /** A server answering as the app's two routes do passes both HTTP
      checks. */
  lemma ServedAppPassesHttpChecks(fetch: Fetch)
    requires fetch(ServerUrl + ServerApp.RootPath) == Status(ServerApp.Root().statusCode)
    requires fetch(ServerUrl + ServerApp.HealthcheckPath) == Status(ServerApp.Healthcheck().statusCode)
    ensures CheckServerHealth(ServerUrl, fetch)
    ensures StatusOk(fetch(ServerUrl + "/")) && StatusOk(fetch(ServerUrl + "/healthcheck"))
  {
  }
}

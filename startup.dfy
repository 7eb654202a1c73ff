/**
 * `main` of server/graph_service/startup.py: wait for Neo4j at the URI
 * from the environment, exit with status 1 when it never becomes ready,
 * otherwise start the HTTP server.
 */
module Startup {
  import opened Outcomes
  import opened Oracles
  import opened Neo4jWait

  const UriVariable: string := "NEO4J_URI"
  const DefaultNeo4jUri: string := "bolt://neo4j:7687"

  /** How the startup process ends. `ServerRan`: the server was started
      and returned normally. `ServerFailed`: starting it raised and the
      script exited with 1. `NotReady`: Neo4j never accepted a
      connection and the script exited with 1 before the server start.
      `Crashed`: the port text was not an integer, and the `ValueError`
      left `main` uncaught. */
  datatype Outcome = ServerRan | ServerFailed | NotReady | Crashed(error: WaitError)

  /** The process exit status: an uncaught exception ends a Python
      process with status 1, as `sys.exit(1)` does. */
  function ExitStatus(o: Outcome): (code: int)
    ensures code == 0 <==> o == ServerRan
    ensures code == 0 || code == 1
  {
    if o == ServerRan then 0 else 1
  }

  /** `main()`. `serverRaises` is whether importing the app or running
      the server raised. The server is started only after a successful
      wait; a failed wait ends the process with status 1. */
  method RunStartup(env: Env, probe: (Address, nat) -> Probe, serverRaises: bool) returns (o: Outcome)
    ensures var parsed := ParseAddress(GetEnv(env, UriVariable, DefaultNeo4jUri));
            parsed.Failure? ==> o == Crashed(parsed.error)
    ensures var parsed := ParseAddress(GetEnv(env, UriVariable, DefaultNeo4jUri));
            parsed.Success? ==>
              var ready := ConnectsWithin(parsed.value, DefaultMaxRetries, probe);
              (o == NotReady <==> !ready)
              && (o == ServerRan <==> ready && !serverRaises)
              && (o == ServerFailed <==> ready && serverRaises)
  {
    var uri := GetEnv(env, UriVariable, DefaultNeo4jUri);
    var waited := WaitForNeo4j(uri, DefaultMaxRetries, DefaultRetryDelay, probe);
    if waited.Failure? {
      return Crashed(waited.error);
    }
    if !waited.value.ready {
      return NotReady;
    }
    if serverRaises {
      return ServerFailed;
    }
    return ServerRan;
  }

  /** With `NEO4J_URI` unset the wait probes host `/neo4j`; when no probe
      of that address ever connects, the process always exits with
      status 1 and the server is never started. */
  method StartupWithDefaultUri(env: Env, probe: (Address, nat) -> Probe, serverRaises: bool)
    returns (o: Outcome)
    requires UriVariable !in env
    requires forall k: nat :: probe(Address("/neo4j", DefaultBoltPort), k) != Connected
    ensures o == NotReady && ExitStatus(o) == 1
  {
    DefaultUriTarget();
    o := RunStartup(env, probe, serverRaises);
  }
}

# Graphiti deployment checks in Dafny

A model of the small pieces of logic in the Graphiti knowledge server's
deployment tooling:

- **The Neo4j readiness wait** (`wait_for_neo4j`, word for word the same in
  `server/graph_service/main.py` and `server/graph_service/startup.py`,
  modelled once in module `Neo4jWait`). The Neo4j URI is split into host and
  port. The `bolt://` check is followed by `uri[6:]`, which cuts only
  `bolt:/`, so `bolt://neo4j:7687` is probed at host `/neo4j`, port 7687.
  The model keeps this. The split is at the first colon, and the text after
  it goes whole to Python's `int()`. Then up to `max_retries` TCP probes
  are made. The first probe that connects returns True. Every failed probe
  except the `max_retries`-th is followed by a sleep, and the delay then becomes
  `min(delay * 1.2, 10)`.
- **The startup script** (`startup.py` `main`, module `Startup`). It exits
  with status 1 when the wait fails, and starts the server only after a
  successful wait.
- **The app's two constant routes** (`/` and `/healthcheck` in `main.py`,
  module `ServerApp`).
- **The deployment verifier** (`verify_deployment.py`, module
  `VerifyDeployment`). It has four checks: environment variables, the Neo4j
  URI scheme, server health and the API endpoints. It combines them into an
  overall verdict, one troubleshooting hint per failing check, and exit
  code 0 or 1.
- **The deployment smoke test** (`test_deployment.py`, module
  `TestDeployment`). It requests each URL once, counts the answers with
  status 200, and exits 0 only when all of them passed.

Supporting modules: `Outcomes` (Option/Result), `PyText` (Python's
`str.strip()`, `str.isspace()`, `in`/`split(':', 1)` and base-10 `int()`),
`Oracles` (the environment and HTTP answers as values). `str.strip()` and
`int()` skip different whitespace: `int()` keeps the ASCII information
separators U+001C to U+001F, which `str.isspace()` accepts, and so rejects
them; the trim in `PyText` takes the set to skip as a parameter.

The outside world enters as parameters:

- The environment is a `map<string, string>`; an absent key means unset.
- Each TCP probe is `probe(address, k)`, the outcome of the k-th attempt:
  connected, refused with an error number, or raised.
- Each HTTP GET is `fetch(url)`, a status code or `Raised`.
- The wait does not sleep. It reports the delays it would sleep, in order,
  as exact `real` values.

## Model

| member | source | states |
|---|---|---|
| `Neo4jWait.StripScheme` | server/graph_service/main.py:22-23 | a `bolt://` URI loses exactly `bolt:/`, leaving text that starts with `/`; any other URI is kept whole |
| `Neo4jWait.ParseAddress` | server/graph_service/main.py:25-30 | host and port come from splitting at the first colon, and the host never holds a colon; with no colon the whole text is the host and the port is 7687; the call fails exactly when the text after the first colon is not an integer, and the error carries that text |
| `Neo4jWait.BoltUriRoundTrip` | server/graph_service/startup.py:26-31 | `bolt://h:p` (h without a colon, p a natural number) is probed at host `/h`, port p |
| `Neo4jWait.BoltUriDefaultPort` | server/graph_service/startup.py:26-34 | `bolt://h` without a port is probed at host `/h`, port 7687 |
| `Neo4jWait.DefaultUriTarget` | server/graph_service/startup.py:65 | the default URI `bolt://neo4j:7687` is probed at host `/neo4j`, port 7687 |
| `Neo4jWait.ForeignSchemeRaises` | server/graph_service/main.py:25-27 | any `scheme://...` URI other than `bolt://` (`neo4j://h:1`, `neo4j+s://h:1`) raises, because the port text starts with `//` |
| `Neo4jWait.SecondColonRaises` | server/graph_service/startup.py:29-31 | a second colon after the scheme cut (`bolt://a:b:1`) ends up in the port text and makes the call raise |
| `PyText.FindChar` | server/graph_service/main.py:25-26 | finds the first occurrence of the character, or reports that `':' in uri` is false |
| `PyText.ParseDecimal` | server/graph_service/main.py:27 | `int()` reads back every decimal spelling of a natural number as that number |
| `PyText.ParseSignedGroups` | server/graph_service/startup.py:31 | `int()` accepts one leading sign: `-` before digits gives minus their value and `+` gives their value, so a negative port passes; no range check is made |
| `PyText.ParseInt` | server/graph_service/main.py:27 | base-10 `int()`: the whitespace `int()` skips (TAB to CR, SPACE and non-ASCII whitespace) is dropped at both ends, then one optional sign and digit groups with single underscores must remain; anything else is the `ValueError` |
| `PyText.ParseIgnoresPadding` | server/graph_service/main.py:27 | `int()` ignores the whitespace it skips around the port text |
| `PyText.RejectsInfoSeparator` | server/graph_service/startup.py:31 | an ASCII information separator (U+001C to U+001F) anywhere in the port text makes `int()` raise |
| `PyText.StripDropsInfoSeparator` | verify_deployment.py:96 | `strip()`, unlike `int()`, removes a leading information separator |
| `PyText.ParsedChars` | server/graph_service/startup.py:31 | text that `int()` accepts holds a character `int()` does not skip, and only the whitespace it skips, signs, digits and underscores |
| `PyText.RejectsSeparator` | server/graph_service/main.py:27 | port text containing `:` or `/` makes `int()` raise |
| `Neo4jWait.NextDelay` | server/graph_service/main.py:52 | the updated delay is the smaller of 10 and 1.2 times the old delay (at most both, and equal to one of them); from a delay in [0, 10] it never shrinks |
| `Neo4jWait.DelayAt` | server/graph_service/startup.py:54-56 | every delay after the first is at most 10; from a start in [0, 10] all delays stay in [start, 10] |
| `Neo4jWait.DelaysNonDecreasing` | server/graph_service/main.py:50-52 | from a start in [0, 10] the sequence of delays never decreases |
| `Neo4jWait.CapIsAbsorbing` | server/graph_service/startup.py:56 | once the delay has reached 10 it stays 10 |
| `Neo4jWait.SleepTimeBound` | server/graph_service/startup.py:54-56 | n sleeps from a start in [0, 10] take at most 10·n seconds in all |
| `Neo4jWait.WaitForNeo4j` | server/graph_service/main.py:17-55 | a bad port text fails with that text before any probe; otherwise the probes go to the parsed address and the report is one the retry loop promises (`ProbedAsSpecified`) |
| `Neo4jWait.ProbeUntilReady` | server/graph_service/main.py:34-52 | the result is True iff one of the first `max_retries` probes connects, and that probe is the last one made; at most `max(max_retries, 0)` probes are made, and exactly that many when none connects; refusals and exceptions alike lead to the next attempt; the sleeps are the first `probes - 1` delays of the backoff schedule, none after the final attempt |
| `Startup.ExitStatus` | server/graph_service/startup.py:70-72 | the process exits with 0 only when the server ran and returned; every other ending is status 1 |
| `Startup.RunStartup` | server/graph_service/startup.py:62-90 | the URI is `NEO4J_URI` or `bolt://neo4j:7687` when unset; a bad port text ends the process with the uncaught error; a failed wait exits before the server start; the server is started iff the wait succeeded, and a server that raises ends with exit 1 |
| `Startup.StartupWithDefaultUri` | server/graph_service/startup.py:65-72 | with `NEO4J_URI` unset and host `/neo4j` unreachable, startup always exits with status 1 and never starts the server |
| `ServerApp.Root` | server/graph_service/main.py:88-98 | `GET /` answers 200 with version `1.0.0` and advertises the health route at `/healthcheck` |
| `ServerApp.Healthcheck` | server/graph_service/main.py:101-103 | `GET /healthcheck` answers 200 with status `healthy` |
| `PyText.TrimSpec` | verify_deployment.py:96 | `strip()` (and the trim inside `int()`, over its own whitespace set) returns the middle slice with no whitespace at either end; all it removes is whitespace; the result is empty iff the value is all whitespace |
| `VerifyDeployment.IsSet` | verify_deployment.py:96 | a variable counts as set iff it is present and holds a character other than whitespace |
| `VerifyDeployment.CheckEnvironmentVariables` | verify_deployment.py:77-111 | there are entries for exactly the three required and three optional names; each entry is true iff the variable is present and not all whitespace |
| `VerifyDeployment.CheckNeo4jConnection` | verify_deployment.py:18-30 | the Neo4j check passes iff the URI starts with `bolt://`; user and password are not looked at and nothing is contacted |
| `VerifyDeployment.AcceptedUriProbesSlashHost` | verify_deployment.py:18-30 | every URI the Neo4j check accepts and the wait can parse is probed at a host starting with `/` |
| `VerifyDeployment.CheckServerHealth` | verify_deployment.py:36-49 | the health check passes iff `GET url/healthcheck` answers status 200; another status or an exception fails it |
| `VerifyDeployment.CheckApiEndpoints` | verify_deployment.py:52-74 | there are exactly the keys `root` and `healthcheck`; each is true iff its GET answered status 200; another status or an exception gives false |
| `VerifyDeployment.RequiredEnvOk` | verify_deployment.py:142 | the environment verdict holds iff each of the three required names has an entry that is true; optional names play no part |
| `VerifyDeployment.AllTrue` | verify_deployment.py:152 | the API verdict holds iff every entry of the endpoint results is true |
| `VerifyDeployment.OverallOk` | verify_deployment.py:156 | the deployment is fine iff all four verdicts hold |
| `VerifyDeployment.Troubleshooting` | verify_deployment.py:156-168 | no hint when all checks pass; otherwise one hint for exactly each failing check, in the script's order, none twice |
| `VerifyDeployment.RunVerification` | verify_deployment.py:114-170 | the environment verdict depends on the three required names only; the Neo4j verdict is `NEO4J_URI` (or its default) starting with `bolt://`, and user and password play no part; server health is `GET /healthcheck` answering 200; the API verdict is both routes answering 200; exit code 0 iff all four hold, otherwise 1 |
| `VerifyDeployment.UnsetUriPassesNeo4jCheck` | verify_deployment.py:122-127 | with `NEO4J_URI` unset the default URI passes the Neo4j check |
| `VerifyDeployment.ServedAppPassesHttpChecks` | verify_deployment.py:36-49 | a server answering as the app's routes do passes the health check and both API checks |
| `TestDeployment.TestEndpoint` | test_deployment.py:10-22 | an endpoint passes iff its GET answers status 200; another status or an exception fails it |
| `TestDeployment.CountPassing` | test_deployment.py:34-40 | the success count never exceeds the number of endpoints |
| `TestDeployment.FullCountIffAllPass` | test_deployment.py:44-49 | the count equals the number of endpoints iff every endpoint answered 200 |
| `TestDeployment.RunDeploymentTest` | test_deployment.py:24-49 | each URL of the two-element list is requested exactly once, in list order; `success_count` is the number that answered 200 and at most the total; exit code 0 iff every endpoint answered 200, otherwise 1 |
| `TestDeployment.ServedAppPassesTest` | test_deployment.py:29-32 | a server answering as the app's routes do passes both tested URLs |

## Left out

- Network calls (`socket.connect_ex`, `aiohttp`, `requests`, `urllib`) are oracle parameters. Timeouts and errors show up only as `Refused` or `Raised` outcomes.
- Sleeping (`asyncio.sleep`, and the one-second pause in `test_deployment.py`) is not performed; the wait reports its delays instead. Per-request timeouts are not modelled.
- Neo4jWait.NextDelay: the delay is an exact `real`, so IEEE rounding of `delay * 1.2` is not modelled.
- PyText.ParseInt: non-ASCII decimal digits, which Python's `int()` accepts, are rejected here. Python's limit on the number of digits an `int()` string may have is not modelled.
- VerifyDeployment.RunVerification: `fetch` gives one answer per URL, so the two GETs of `/healthcheck` (server health and the API check) get the same answer within one run.
- The order of the result dictionaries, and everything logged or printed, is not modelled. Only which hint is emitted is kept.
- The `lifespan` hook of `main.py` is not modelled. It logs a wait that returns False, or a failed Graphiti initialisation, and carries on. A port text that `int()` rejects raises out of it uncaught, as in `WaitForNeo4j`'s `Failure` case.
- Also not modelled: Graphiti initialisation, the `ingest`/`retrieve` routers, settings loading and the server itself. `uvicorn.run` is reduced to "ran" or "raised".
- `server/graph_service/healthcheck.py` is not modelled. It is one `urllib` request mapped to exit 0 or 1 by the same status-200 rule as `test_endpoint`.
- Dependency-ordered start and stop, cycle detection, restart policies and severity-ordered diagnostics are not implemented by these files and are not modelled.

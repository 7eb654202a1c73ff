/**
 * test_deployment.py: GET each of the server's two routes once, in list
 * order, count the ones that answered 200 and exit 0 only when all did.
 * The one-second pause after each request is not modelled.
 */
module TestDeployment {
  import opened Oracles
  import ServerApp

  /** The URLs tested, in order, with their descriptions. */
  const Endpoints: seq<(string, string)> := [
    ("http://localhost:8000/", "Root endpoint"),
    ("http://localhost:8000/healthcheck", "Health check")
  ]

  /** The URL of each endpoint, in order. */
  function Urls(endpoints: seq<(string, string)>): seq<string> {
    seq(|endpoints|, i requires 0 <= i < |endpoints| => endpoints[i].0)
  }

  /** `test_endpoint(url, description)`: the status-200 rule, with an
      exception counting as a failure. */
  predicate TestEndpoint(url: string, fetch: Fetch) {
    StatusOk(fetch(url))
  }

  /** How many of `urls` pass `TestEndpoint`. */
  function CountPassing(urls: seq<string>, fetch: Fetch): (n: nat)
    ensures n <= |urls|
  {
    if urls == [] then 0
    else CountPassing(urls[..|urls| - 1], fetch) + (if TestEndpoint(urls[|urls| - 1], fetch) then 1 else 0)
  }

  /** The count reaches the number of URLs exactly when every one of them
      passes. */
  lemma {:induction false} FullCountIffAllPass(urls: seq<string>, fetch: Fetch)
    ensures CountPassing(urls, fetch) == |urls| <==> forall i :: 0 <= i < |urls| ==> TestEndpoint(urls[i], fetch)
  {
    if urls != [] {
      var init := urls[..|urls| - 1];
      FullCountIffAllPass(init, fetch);
      assert forall i :: 0 <= i < |init| ==> init[i] == urls[i];
    }
  }

  /** `main()`: every endpoint is requested exactly once, in list order;
      `successCount` is the number that answered 200, and the exit code
      is 0 exactly when that is all of them. */
  method RunDeploymentTest(fetch: Fetch) returns (exitCode: int, successCount: nat, requested: seq<string>)
    ensures requested == Urls(Endpoints)
    ensures successCount == CountPassing(requested, fetch) && successCount <= |Endpoints|
    ensures exitCode == 0 <==> successCount == |Endpoints|
    ensures exitCode == 0 <==> forall i :: 0 <= i < |Endpoints| ==> fetch(Endpoints[i].0) == Status(200)
    ensures exitCode == 0 || exitCode == 1
  {
    successCount := 0;
    requested := [];
    var totalCount := |Endpoints|;
    for i := 0 to |Endpoints|
      invariant requested == Urls(Endpoints[..i])
      invariant successCount == CountPassing(requested, fetch)
    {
      var (url, description) := Endpoints[i];
      assert Urls(Endpoints[..i + 1]) == requested + [url];
      if TestEndpoint(url, fetch) {
        successCount := successCount + 1;
      }
      requested := requested + [url];
      assert requested[..|requested| - 1] == Urls(Endpoints[..i]);
    }
    assert Endpoints[..|Endpoints|] == Endpoints;
    FullCountIffAllPass(requested, fetch);
    exitCode := if successCount == totalCount then 0 else 1;
  }

  /** A server answering as the app's two routes do passes the test. */
  lemma ServedAppPassesTest(fetch: Fetch)
    requires fetch("http://localhost:8000" + ServerApp.RootPath) == Status(ServerApp.Root().statusCode)
    requires fetch("http://localhost:8000" + ServerApp.HealthcheckPath) == Status(ServerApp.Healthcheck().statusCode)
    ensures CountPassing(Urls(Endpoints), fetch) == |Endpoints|
  {
    assert ServerApp.Root().statusCode == 200 && ServerApp.Healthcheck().statusCode == 200;
    assert "http://localhost:8000" + ServerApp.RootPath == Endpoints[0].0;
    assert "http://localhost:8000" + ServerApp.HealthcheckPath == Endpoints[1].0;
    var urls := Urls(Endpoints);
    FullCountIffAllPass(urls, fetch);
  }
}

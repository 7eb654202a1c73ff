/**
 * The two constant routes of the knowledge server's HTTP app
 * (server/graph_service/main.py): `GET /` describes the service and
 * `GET /healthcheck` reports it healthy, both with status 200.
 */
module ServerApp {
  import opened Outcomes

  const RootPath: string := "/"
  const HealthcheckPath: string := "/healthcheck"

  /** The JSON shapes the two routes return: strings and objects whose
      members keep their order. */
  datatype Json = Str(s: string) | Obj(members: seq<(string, Json)>)

  datatype JsonResponse = JsonResponse(content: Json, statusCode: int)

  /** The value of the first member named `key` of an object. */
  function Member(j: Json, key: string): (r: Option<Json>)
    ensures r.Some? ==> j.Obj? && exists i :: 0 <= i < |j.members| && j.members[i] == (key, r.value)
    ensures r.None? ==> !j.Obj? || forall i :: 0 <= i < |j.members| ==> j.members[i].0 != key
    decreases if j.Obj? then |j.members| else 0
  {
    match j
    case Str(_) => None
    case Obj(ms) =>
      if ms == [] then None
      else if ms[0].0 == key then Some(ms[0].1)
      else
        var r := Member(Obj(ms[1..]), key);
        assert forall i :: 1 <= i < |ms| ==> ms[i] == ms[1..][i - 1];
        r
  }

  /** `GET /`: status 200 and a description that names the server's
      version and advertises the health route at the path it is served
      on. */
  function Root(): (r: JsonResponse)
    ensures r.statusCode == 200
    ensures Member(r.content, "version") == Some(Str("1.0.0"))
    ensures Member(r.content, "endpoints").Some?
    ensures Member(Member(r.content, "endpoints").value, "healthcheck") == Some(Str(HealthcheckPath))
  {
    var endpoints := Obj([("healthcheck", Str("/healthcheck")), ("ingest", Str("/ingest")),
                          ("retrieve", Str("/retrieve"))]);
    var r := JsonResponse(Obj([("message", Str("Graphiti Knowledge Server")), ("version", Str("1.0.0")),
                               ("endpoints", endpoints)]), 200);
    assert Member(endpoints, "healthcheck") == Some(Str(HealthcheckPath));
    var ms := r.content.members;
    assert Member(Obj(ms[2..]), "endpoints") == Some(endpoints);
    assert ms[1..][1..] == ms[2..];
    assert Member(Obj(ms[1..]), "endpoints") == Some(endpoints);
    r
  }

  /** `GET /healthcheck`: status 200 and `status` reported as `healthy`. */
  function Healthcheck(): (r: JsonResponse)
    ensures r.statusCode == 200
    ensures Member(r.content, "status") == Some(Str("healthy"))
  {
    JsonResponse(Obj([("status", Str("healthy"))]), 200)
  }
}

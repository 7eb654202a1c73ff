/**
 * `wait_for_neo4j`: the readiness wait the knowledge server runs before it
 * starts. The URI is split into a host and a port, then a TCP connection
 * is tried up to `max_retries` times, sleeping between attempts with a
 * delay that grows by a factor 1.2 up to a cap of 10 seconds.
 *
 * The same function appears twice in the repository, word for word
 * (server/graph_service/main.py and server/graph_service/startup.py); it
 * is modelled once here.
 *
 * The socket is an oracle: `probe(address, k)` is what the k-th
 * connection attempt (counting from 0) to `address` produced. Sleeping is
 * recorded, not performed: the report lists the delays slept, in order.
 */
module Neo4jWait {
  import opened Outcomes
  import opened PyText

  const BoltScheme: string := "bolt://"
  /** What `uri[6:]` cuts off a `bolt://` URI: one slash short of the
      scheme the comment beside it names. */
  const CutPrefix: string := "bolt:/"
  const DefaultBoltPort: int := 7687
  const DefaultMaxRetries: int := 30
  const DefaultRetryDelay: real := 2.0
  const BackoffFactor: real := 1.2
  const DelayCap: real := 10.0

  datatype Address = Address(host: string, port: int)

  /** The `ValueError` that `int()` raises on the text after the colon;
      it is raised before any connection is tried and leaves the function. */
  datatype WaitError = InvalidPortLiteral(text: string)

  /** A non-zero error number of `connect_ex`; 0 is the connected case. */
  type Errno = e: int | e != 0 witness 1

  /** One connection attempt: `connect_ex` returned 0, returned an error
      number, or something raised inside the `try`. */
  datatype Probe = Connected | Refused(errno: Errno) | Raised

  /** What one call did: the address it probed, what it returned, how many
      probes it made and the delays it slept, in order. */
  datatype WaitReport = WaitReport(target: Address, ready: bool, probes: nat, sleeps: seq<real>)

  // ----- Address parsing -----

  /** The URI as the parser sees it after the scheme check: a `bolt://`
      URI loses its first six characters, everything else is kept. */
  function StripScheme(uri: string): (rest: string)
    ensures StartsWith(uri, BoltScheme) ==> uri == CutPrefix + rest && rest != [] && rest[0] == '/'
    ensures !StartsWith(uri, BoltScheme) ==> rest == uri
  {
    if StartsWith(uri, BoltScheme) then
      assert uri == uri[..6] + uri[6..];
      uri[6..]
    else uri
  }

  /** Host and port of a Neo4j URI, split at the first colon; without a
      colon the port is 7687. The split is unique because the host never
      holds a colon, and the port text is kept whole, so a second colon
      or any other junk in it makes `int()` raise. */
  function ParseAddress(uri: string): (r: Result<Address, WaitError>)
    ensures r.Success? ==> ':' !in r.value.host
    ensures ':' !in StripScheme(uri) ==> r == Success(Address(StripScheme(uri), DefaultBoltPort))
    ensures r.Success? && ':' in StripScheme(uri) ==>
              var rest, h := StripScheme(uri), |r.value.host|;
              h < |rest| && rest == r.value.host + [':'] + rest[h + 1..]
              && ParseInt(rest[h + 1..]) == Some(r.value.port)
    ensures r.Failure? ==>
              var rest, t := StripScheme(uri), r.error.text;
              |t| < |rest| && rest == rest[..|rest| - |t| - 1] + [':'] + t
              && ':' !in rest[..|rest| - |t| - 1] && ParseInt(t) == None
  {
    var rest := StripScheme(uri);
    match FindChar(rest, ':')
    case None => Success(Address(rest, DefaultBoltPort))
    case Some(i) =>
      var text := rest[i + 1..];
      assert rest == rest[..i] + [':'] + text;
      assert |rest| - |text| - 1 == i;
      match ParseInt(text)
      case None => Failure(InvalidPortLiteral(text))
      case Some(port) => Success(Address(rest[..i], port))
  }

  /** `bolt://host:port` is probed at `/host`, `port`: the sixth-character
      cut leaves the second slash on the host. */
  lemma {:induction false} BoltUriRoundTrip(host: string, port: nat)
    requires ':' !in host
    ensures ParseAddress(BoltScheme + host + ":" + DecimalString(port))
            == Success(Address("/" + host, port))
  {
    var uri := BoltScheme + host + ":" + DecimalString(port);
    assert StartsWith(uri, BoltScheme);
    var rest := StripScheme(uri);
    assert rest == ("/" + host) + [':'] + DecimalString(port);
    SplitAtColon("/" + host, DecimalString(port));
    ParseDecimal(port);
  }

  /** `bolt://host` without a port is probed at `/host`, 7687. */
  lemma {:induction false} BoltUriDefaultPort(host: string)
    requires ':' !in host
    ensures ParseAddress(BoltScheme + host) == Success(Address("/" + host, DefaultBoltPort))
  {
    var uri := BoltScheme + host;
    assert StartsWith(uri, BoltScheme);
    assert StripScheme(uri) == "/" + host;
  }

  /** The default URI of both scripts parses to host `/neo4j`, port 7687. */
  lemma DefaultUriTarget()
    ensures ParseAddress("bolt://neo4j:7687") == Success(Address("/neo4j", 7687))
  {
    var rest := StripScheme("bolt://neo4j:7687");
    assert rest == "/neo4j:7687";
    SpellPort7687();
    assert rest == "/neo4j" + [':'] + DecimalString(7687);
    SplitAtColon("/neo4j", DecimalString(7687));
    ParseDecimal(7687);
  }

  lemma SpellPort7687()
    ensures BoltScheme + "neo4j" + ":" + DecimalString(7687) == "bolt://neo4j:7687"
  {
    assert DecimalString(7) == "7";
    assert DecimalString(76) == "76";
    assert DecimalString(768) == "768";
  }

  /** A URI whose scheme is not `bolt` keeps its `//` after the first
      colon, so the port text is never an integer and the call raises:
      `neo4j://h:1`, `bolt+s://h:1` and `neo4j+s://h:1` all fail. */
  lemma {:induction false} ForeignSchemeRaises(scheme: string, tail: string)
    requires ':' !in scheme
    requires !StartsWith(scheme + "://" + tail, BoltScheme)
    ensures ParseAddress(scheme + "://" + tail).Failure?
  {
    var uri := scheme + "://" + tail;
    assert uri == scheme + [':'] + ("//" + tail);
    SplitAtColon(scheme, "//" + tail);
    RejectsSeparator("//" + tail, 0);
  }

  /** Only the first colon splits: a second colon lands in the port text
      and makes the call raise, as in `bolt://a:b:1`. */
  lemma {:induction false} SecondColonRaises(uri: string, i: nat, j: nat)
    requires i < j < |StripScheme(uri)|
    requires StripScheme(uri)[i] == ':' && StripScheme(uri)[j] == ':'
    ensures ParseAddress(uri).Failure?
  {
    var rest := StripScheme(uri);
    var f := FindChar(rest, ':').value;
    var text := rest[f + 1..];
    assert text[j - f - 1] == ':';
    RejectsSeparator(text, j - f - 1);
  }

  lemma {:induction false} SplitAtColon(host: string, text: string)
    requires ':' !in host
    ensures FindChar(host + [':'] + text, ':') == Some(|host|)
    ensures (host + [':'] + text)[..|host|] == host && (host + [':'] + text)[|host| + 1..] == text
  {
    var s := host + [':'] + text;
    assert s[|host|] == ':';
    assert s[..|host|] == host;
  }

  // ----- Backoff -----

  /** `min(delay * 1.2, 10)` */
  function NextDelay(d: real): (r: real)
    ensures r <= DelayCap && r <= d * BackoffFactor
    ensures r == DelayCap || r == d * BackoffFactor
    ensures 0.0 <= d <= DelayCap ==> d <= r
  {
    if DelayCap < d * BackoffFactor then DelayCap else d * BackoffFactor
  }

  /** The delay slept after the k-th failed attempt (counting from 0),
      starting from `d`. */
  function DelayAt(d: real, k: nat): (r: real)
    ensures k > 0 ==> r <= DelayCap
    ensures 0.0 <= d <= DelayCap ==> d <= r <= DelayCap
  {
    if k == 0 then d else NextDelay(DelayAt(d, k - 1))
  }

  /** The first n delays of the backoff schedule starting from `d`. */
  function Backoff(d: real, n: nat): (s: seq<real>)
    ensures |s| == n
  {
    seq(n, k requires 0 <= k < n => DelayAt(d, k))
  }

  /** From a start in [0, 10] the delays never shrink. */
  lemma {:induction false} DelaysNonDecreasing(d: real, i: nat, j: nat)
    requires 0.0 <= d <= DelayCap
    requires i <= j
    ensures DelayAt(d, i) <= DelayAt(d, j)
    decreases j
  {
    if i < j {
      DelaysNonDecreasing(d, i, j - 1);
    }
  }

  /** Once the cap is reached every later delay equals it. */
  lemma {:induction false} CapIsAbsorbing(d: real, i: nat, j: nat)
    requires DelayAt(d, i) == DelayCap
    requires i <= j
    ensures DelayAt(d, j) == DelayCap
    decreases j
  {
    if i < j {
      CapIsAbsorbing(d, i, j - 1);
    }
  }

  function Sum(s: seq<real>): real {
    if s == [] then 0.0 else Sum(s[..|s| - 1]) + s[|s| - 1]
  }

  /** The time spent sleeping is at most 10 seconds per sleep when the
      starting delay lies in [0, 10]. */
  lemma {:induction false} SleepTimeBound(d: real, n: nat)
    requires 0.0 <= d <= DelayCap
    ensures 0.0 <= Sum(Backoff(d, n)) <= DelayCap * n as real
  {
    if n > 0 {
      SleepTimeBound(d, n - 1);
      assert Backoff(d, n)[..n - 1] == Backoff(d, n - 1);
    }
  }

  // ----- The wait -----

  /** Some probe among the first `maxRetries` connects. */
  predicate ConnectsWithin(target: Address, maxRetries: int, probe: (Address, nat) -> Probe) {
    exists k: nat :: k < maxRetries && probe(target, k) == Connected
  }

  function Max0(n: int): nat {
    if n < 0 then 0 else n
  }

  /** `wait_for_neo4j(uri, max_retries, retry_delay)`. A URI whose port
      text is not an integer raises before any probe; otherwise the wait
      probes the parsed address. */
  method WaitForNeo4j(uri: string, maxRetries: int, retryDelay: real, probe: (Address, nat) -> Probe)
    returns (r: Result<WaitReport, WaitError>)
    ensures ParseAddress(uri).Failure? ==> r == Failure(ParseAddress(uri).error)
    ensures ParseAddress(uri).Success? ==> r.Success? && r.value.target == ParseAddress(uri).value
    ensures r.Success? ==> ProbedAsSpecified(r.value, maxRetries, retryDelay, probe)
  {
    var parsed := ParseAddress(uri);
    if parsed.Failure? {
      return Failure(parsed.error);
    }
    var report := ProbeUntilReady(parsed.value, maxRetries, retryDelay, probe);
    return Success(report);
  }

  /** What the retry loop promises about its report: it is ready exactly
      when some probe among the first `maxRetries` connects; every probe
      before the last failed; a ready wait ended on a connecting probe
      and an unready one used up all `maxRetries` attempts; and one sleep
      of the backoff schedule followed each failed attempt except the
      `maxRetries`-th. */
  ghost predicate ProbedAsSpecified(w: WaitReport, maxRetries: int, retryDelay: real, probe: (Address, nat) -> Probe) {
    && (w.ready <==> ConnectsWithin(w.target, maxRetries, probe))
    && w.probes <= Max0(maxRetries)
    && (forall k: nat :: k + 1 < w.probes ==> probe(w.target, k) != Connected)
    && (w.ready ==> w.probes > 0 && probe(w.target, w.probes - 1) == Connected)
    && (!w.ready ==> w.probes == Max0(maxRetries))
    && w.sleeps == Backoff(retryDelay, if w.probes == 0 then 0 else w.probes - 1)
  }

  /** The retry loop of `wait_for_neo4j`: the first probe that connects
      ends the wait with True, the others (a non-zero `connect_ex` result
      or an exception alike) lead to the next attempt, at most
      `maxRetries` in all, and a sleep follows every failed attempt except
      the `maxRetries`-th, each delay 1.2 times the previous one, capped at 10
      seconds. */
  method ProbeUntilReady(target: Address, maxRetries: int, retryDelay: real, probe: (Address, nat) -> Probe)
    returns (w: WaitReport)
    ensures w.target == target
    ensures ProbedAsSpecified(w, maxRetries, retryDelay, probe)
  {
    var delay := retryDelay;
    var sleeps: seq<real> := [];
    var attempt: nat := 0;
    while attempt < maxRetries
      invariant attempt <= Max0(maxRetries)
      invariant forall k: nat :: k < attempt ==> probe(target, k) != Connected
      invariant attempt < maxRetries ==> sleeps == Backoff(retryDelay, attempt) && delay == DelayAt(retryDelay, attempt)
      invariant attempt == 0 ==> sleeps == []
      invariant 0 < attempt && maxRetries <= attempt ==> sleeps == Backoff(retryDelay, attempt - 1)
    {
      if probe(target, attempt) == Connected {
        return WaitReport(target, true, attempt + 1, sleeps);
      }
      if attempt < maxRetries - 1 {
        BackoffStep(retryDelay, attempt);
        sleeps := sleeps + [delay];
        delay := NextDelay(delay);
      }
      attempt := attempt + 1;
    }
    return WaitReport(target, false, attempt, sleeps);
  }

  /** The schedule grows by one delay per failed attempt. */
  lemma BackoffStep(d: real, n: nat)
    ensures Backoff(d, n + 1) == Backoff(d, n) + [DelayAt(d, n)]
  {
  }
}

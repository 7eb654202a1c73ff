/**
 * The outside world as the scripts see it, given as values: the process
 * environment and the answers of HTTP requests.
 */
module Oracles {

  /** The process environment; a name that is not a key is unset. */
  type Env = map<string, string>

  /** `os.getenv(name, default)`: the value when the name is present (even
      when it is empty), the default only when it is absent. */
  function GetEnv(env: Env, name: string, default: string): string {
    if name in env then env[name] else default
  }

  /** What one HTTP GET produced: a response with a status code, or an
      exception (refused connection, timeout, bad URL, ...). */
  datatype HttpResult = Status(code: int) | Raised

  /** The answer the server gives to a GET of each URL during one run. */
  type Fetch = string -> HttpResult

  /** The verdict rule shared by every HTTP check of the scripts: a
      response with status 200 passes; another status or an exception
      fails. */
  predicate StatusOk(res: HttpResult) {
    res.Status? && res.code == 200
  }
}

/**
 * Observable effects. A run of an asynchronous operation is the ordered list of
 * requests and timers it issued, together with how its promise settled. The
 * robot is an oracle `Net` that answers each request.
 */
module Effects {
  import opened Wrappers
  import opened Js

  datatype Method = Get | Post

  /** The method name as the HTTP client spells it. */
  function MethodName(m: Method): string {
    match m
    case Get => "get"
    case Post => "post"
  }

  /**
   * One effect: an HTTP request on a url relative to the robot's base url,
   * with its body (`JScalar(Undefined)` for none), or a timer of `ms` milliseconds.
   */
  datatype Event =
    | Request(verb: Method, url: string, data: Json)
    | Wait(ms: Num)

  /** The robot's answer to a request: a response body, or the transport's error message. */
  datatype Reply = Respond(data: Json) | Fail(message: string)

  /** The robot, as seen through the network. */
  type Net = (Method, string, Json) -> Reply

  /** The effects an operation issued, in order, and how its promise settled. */
  datatype Run<+T> = Run(trace: seq<Event>, outcome: Result<T>)

  function Pure<T>(v: T): Run<T> {
    Run([], Ok(v))
  }

  /** A promise rejected before it issued anything (a `TypeError` thrown synchronously, say). */
  function Reject<T>(message: string): Run<T> {
    Run([], Err(message))
  }

  /**
   * The message of the `TypeError` a call of a missing method raises (a
   * property of `undefined`, or a method the object does not have); its exact
   * wording is not modelled.
   */
  const TypeError := "TypeError"

  /** `await r` then continue with `k`: a rejection skips the continuation. */
  function Then<T, U>(r: Run<T>, k: T -> Run<U>): (s: Run<U>)
    ensures r.outcome.Err? ==> s == Run(r.trace, Err(r.outcome.error))
    ensures r.outcome.Ok? ==>
              s.trace == r.trace + k(r.outcome.value).trace && s.outcome == k(r.outcome.value).outcome
  {
    match r.outcome
    case Err(e) => Run(r.trace, Err(e))
    case Ok(v) =>
      var next := k(v);
      Run(r.trace + next.trace, next.outcome)
  }

  /** `r.then(f)` with a synchronous `f`. */
  function MapRun<T, U>(r: Run<T>, f: T -> U): Run<U> {
    match r.outcome
    case Err(e) => Run(r.trace, Err(e))
    case Ok(v) => Run(r.trace, Ok(f(v)))
  }

  /** `r.catch(h)`: a rejection becomes a fulfilment with `h` of its message. */
  function Catch<T>(r: Run<T>, h: string -> T): (s: Run<T>)
    ensures s.trace == r.trace && s.outcome.Ok?
  {
    match r.outcome
    case Err(e) => Run(r.trace, Ok(h(e)))
    case Ok(_) => r
  }
}

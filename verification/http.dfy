/** HTTP replies as built by `NextResponse.json(body, { status })`, with the
    body held as the value before `JSON.stringify` serialises it, and the
    reading of query parameters and headers. */
module Http {

  /** The body is either `{ error: message }` or the route's payload. */
  datatype Body<+T> = ErrorBody(error: string) | Payload(data: T)

  datatype Reply<+T> = Reply(status: nat, body: Body<T>)

  /** `NextResponse.json(payload)` without a status option answers 200. */
  function Ok<T>(payload: T): Reply<T> {
    Reply(200, Payload(payload))
  }

  function Error<T>(status: nat, message: string): Reply<T> {
    Reply(status, ErrorBody(message))
  }

  /** `searchParams.get(name) || fallback` (also `headers.get(name) || fallback`):
      a missing or empty value gives the fallback. */
  function ParamOr(params: map<string, string>, name: string, fallback: string): (v: string)
    ensures name in params && params[name] != "" ==> v == params[name]
    ensures name !in params || params[name] == "" ==> v == fallback
  {
    if name in params && params[name] != "" then params[name] else fallback
  }
}

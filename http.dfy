/** The parts of an HTTP exchange the envelopes read: the request's URL and method, and the
    `meta` block built from them. The clock is a parameter: `timestamp` is whatever
    `new Date().toISOString()` returned. */
module Http {
  import opened Json

  datatype Request = Request(url: string, httpMethod: string)

  datatype Meta = Meta(timestamp: string, path: string, httpMethod: string)

  /** `{ timestamp, path: request.url, method: request.method }`. */
  function MetaOf(request: Request, timestamp: string): (m: Meta)
    ensures m.path == request.url && m.httpMethod == request.httpMethod && m.timestamp == timestamp
  {
    Meta(timestamp, request.url, request.httpMethod)
  }

  function MetaValue(m: Meta): Value
  {
    Obj(map["timestamp" := Str(m.timestamp), "path" := Str(m.path), "method" := Str(m.httpMethod)])
  }
}

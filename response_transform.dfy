/** The body of the response-transform interceptor's `map`: a handler result already in the
    envelope format passes through, anything else is wrapped. */
module ResponseTransform {
  import opened Json
  import opened Http

  /** `data && typeof data === 'object' && 'success' in data`. An array is an object too,
      but a decoded array never has a `success` property. */
  predicate IsEnvelope(data: Value)
  {
    Truthy(data) && IsObjectType(data) && data.Obj? && "success" in data.fields
  }

  function Wrap(data: Value, meta: Meta): Value
  {
    Obj(map["success" := Bool(true), "data" := data, "meta" := MetaValue(meta)])
  }

  /** The `map` callback: whatever the handler returns, the client receives an envelope, and
      an envelope is passed on as it is. */
  function Transform(data: Value, request: Request, timestamp: string): (r: Value)
    ensures IsEnvelope(r)
    ensures IsEnvelope(data) ==> r == data
  {
    if IsEnvelope(data) then data else Wrap(data, MetaOf(request, timestamp))
  }

  // ---------------------------------------------------------------- what the transform promises

  /** A result is returned unchanged exactly when it already is an envelope; otherwise it is
      wrapped, untouched, under `data`, with `success` true and the request's path and method. */
  lemma TransformCases(data: Value, request: Request, timestamp: string)
    ensures Transform(data, request, timestamp) == data <==> IsEnvelope(data)
    ensures !IsEnvelope(data) ==>
      var r := Transform(data, request, timestamp);
      && r.Obj? && r.fields["success"] == Bool(true) && r.fields["data"] == data
      && r.fields["meta"] == MetaValue(Meta(timestamp, request.url, request.httpMethod))
  {
    if !IsEnvelope(data) {
      var r := Transform(data, request, timestamp);
      assert r.fields["data"] == data;
    }
  }

  /** `null`, `undefined` and every primitive are always wrapped. */
  lemma PrimitivesWrapped(data: Value, request: Request, timestamp: string)
    requires !data.Obj? && !data.Arr?
    ensures Transform(data, request, timestamp) == Wrap(data, MetaOf(request, timestamp))
  {
  }

  /** Transforming twice is transforming once, whatever the two requests and clocks. */
  lemma TransformIdempotent(data: Value, request: Request, timestamp: string, request': Request, timestamp': string)
    ensures Transform(Transform(data, request, timestamp), request', timestamp') == Transform(data, request, timestamp)
  {
  }
}

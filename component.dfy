/**
 * The value types the chain dispatcher works with: requests, responses,
 * status codes, processors and the ordering entries that pair a processor
 * with a display name and a priority.
 *
 * The request, response and status-code classes of the repository are not
 * part of this model; they are stated here only as far as the dispatcher
 * uses them.
 */
module Component {

  datatype Option<+T> = None | Some(value: T)

  /** A metadata or output value. PHP values are untyped; this model
      restricts outputs and extras to strings. The dispatcher itself stores
      only the handling entry's name. */
  datatype Value = Text(text: string)

  /** A request, identified by the name it was constructed with. The
      dispatcher passes it through untouched. */
  datatype Request = Request(name: string)

  /** The status code of a response. `NotImplemented` is the distinguished
      code the dispatcher produces itself; every other code is whatever a
      delegated processor chooses. */
  datatype StatusCode = NotImplemented | Code(code: int)

  /** A response: the originating request, an optional (nullable) output, a
      status code and a string-keyed bag of extra metadata. */
  datatype Response = Response(
    request: Request,
    output: Option<Value>,
    status: StatusCode,
    extras: map<string, Value>)

  /** `setExtra(key, value)`: sets or overwrites one metadata key and leaves
      the request, output, status and every other key as they were. */
  function SetExtra(resp: Response, key: string, v: Value): (r: Response)
    ensures r.request == resp.request && r.output == resp.output && r.status == resp.status
    ensures key in r.extras && r.extras[key] == v
    ensures r.extras.Keys == resp.extras.Keys + {key}
    ensures forall k :: k in resp.extras && k != key ==> r.extras[k] == resp.extras[k]
  {
    resp.(extras := resp.extras[key := v])
  }

  /** A processor: something that says whether it can handle a request and,
      if asked, handles it. Both capabilities are opaque to the dispatcher. */
  datatype Processor = Processor(accepts: Request -> bool, handle: Request -> Response)

  /** An ordering entry: a processor with its registered name and priority. */
  datatype Item = Item(processor: Processor, name: string, priority: int)

  /** Whether the entry's processor claims the request. */
  predicate Accepts(item: Item, r: Request)
  {
    item.processor.accepts(r)
  }
}

/** The parts of the HTTP layer the library touches: status codes, header multimaps and a response. */
module Http {

  /**
   * An HTTP status: the four the library produces by name, and any other
   * status by its numeric value.
   */
  datatype HttpStatus = BadRequest | NotFound | Conflict | InternalServerError | Other(code: int)
  {
    function Value(): int
    {
      match this
      case BadRequest => 400
      case NotFound => 404
      case Conflict => 409
      case InternalServerError => 500
      case Other(code) => code
    }
  }

  /**
   * A header multimap: each key holds its values in the order they were added.
   * Keys are compared exactly (the case-insensitivity of real HTTP headers is not modelled).
   */
  type Headers = map<string, seq<string>>

  /** The values under `key`, empty when the key is absent. */
  function Values(h: Headers, key: string): seq<string>
  {
    if key in h then h[key] else []
  }

  /** `HttpHeaders.add`: append one value under `key`, creating the key when absent. */
  function AddHeader(h: Headers, key: string, value: string): (r: Headers)
    ensures r.Keys == h.Keys + {key}
    ensures Values(r, key) == Values(h, key) + [value]
    ensures forall k :: k in h && k != key ==> r[k] == h[k]
  {
    h[key := Values(h, key) + [value]]
  }

  /** An outbound response whose headers are changed in place. */
  class HttpResponse {
    var headers: Headers

    constructor (headers: Headers)
      ensures this.headers == headers
    {
      this.headers := headers;
    }

    /** Append `value` to the values under `key`. */
    method Add(key: string, value: string)
      modifies this
      ensures headers == AddHeader(old(headers), key, value)
    {
      headers := AddHeader(headers, key, value);
    }
  }

}

/** The client class of src/index.ts.  The network is a parameter: `fetch`
    stands for sending a request and parsing its JSON reply, and every method
    returns, beside its result, the request(s) it handed to `fetch`. */
module Client {
  import opened Wrappers
  import opened JsObject
  import opened Transcode
  import opened Http

  const DefaultBaseUrl := "https://api.turbopuffer.com"

  /** A JavaScript number, as far as the `limit` of `listAllVectors` goes. */
  datatype Limit = Finite(value: real) | PositiveInfinity | NegativeInfinity | NaN

  /** The `limit = Infinity` default of `listAllVectors`. */
  function LimitOrDefault(limit: Option<Limit>): Limit {
    if limit.Some? then limit.value else PositiveInfinity
  }

  /** JavaScript's `x < limit` for a finite `x`. */
  predicate Below(x: real, limit: Limit) {
    match limit
    case Finite(l) => x < l
    case PositiveInfinity => true
    case NegativeInfinity => false
    case NaN => false
  }

  class TurboPufferApiClientV1 {
    const baseUrl: string
    const token: Option<string>

    /** `baseUrl` defaults to the production endpoint; the token is kept as
        given, absent or not. */
    constructor(baseUrl: Option<string>, token: Option<string>)
      ensures this.baseUrl == if baseUrl.Some? then baseUrl.value else DefaultBaseUrl
      ensures this.token == token
    {
      this.baseUrl := if baseUrl.Some? then baseUrl.value else DefaultBaseUrl;
      this.token := token;
    }

    /** request: build the request, send it, and map an error payload to a
        thrown `TurboPufferError`. */
    method Request<B, T>(call: Call<B>, fetch: HttpRequest<B> -> Response<T>)
      returns (sent: HttpRequest<B>, result: Result<Payload<T>, Exception>)
      ensures sent.httpMethod == call.httpMethod && sent.url == baseUrl + call.path
      ensures sent.searchParams == if call.query.Some? then SerializeQuery(call.query.value) else []
      ensures Get(sent.headers, "Content-Type") == Some("application/json")
      ensures Get(sent.headers, "Accept-Encoding") == Some("gzip")
      ensures Get(sent.headers, "Authorization") == Some(AuthorizationValue(token))
      ensures Get(sent.headers, "Content-Encoding")
              == if call.compress && call.body.Some? then Some("gzip") else None
      ensures |sent.headers| == if call.compress && call.body.Some? then 4 else 3
      ensures sent.body == match call.body
                           case None => NoBody
                           case Some(b) => if call.compress then Gzip(b) else Json(b)
      ensures result == MapPayload(fetch(sent))
    {
      var searchParams: seq<(string, string)> := [];
      if call.query.Some? {
        var query := call.query.value;
        for i := 0 to |query|
          invariant searchParams == SerializeQuery(query[..i])
        {
          assert query[..i + 1][..i] == query[..i];
          var value := query[i].1;
          if value.Defined? {
            searchParams := searchParams + [(query[i].0, value.text)];
          }
        }
        assert query[..|query|] == query;
      }

      var headers: Object<string> := [
        ("Content-Type", "application/json"),
        ("Accept-Encoding", "gzip"),
        ("Authorization", AuthorizationValue(token))
      ];
      var body: Body<B> := NoBody;
      if call.compress && call.body.Some? {
        headers := headers + [("Content-Encoding", "gzip")];
        body := Gzip(call.body.value);
      } else if call.body.Some? {
        body := Json(call.body.value);
      }

      GetAt(headers, 2);
      if |headers| == 4 {
        GetAt(headers, 3);
      } else {
        GetDefined(headers, "Content-Encoding");
      }
      sent := HttpRequest(call.httpMethod, baseUrl + call.path, searchParams, headers, body);
      var res := fetch(sent);
      result := MapPayload(res);
    }

    /** listVectors: one listing page, from the given cursor. */
    method ListVectors<V, F>(namespace: string, cursor: Option<string>,
                             fetch: HttpRequest<()> -> Response<Page<V, F>>)
      returns (sent: HttpRequest<()>, result: Result<Page<V, F>, Exception>)
      ensures sent.httpMethod == "GET" && sent.url == baseUrl + VectorsPath(namespace)
      ensures sent.searchParams == if cursor.Some? then [("cursor", cursor.value)] else []
      ensures sent.body == NoBody
      ensures result == ContentOf(MapPayload(fetch(sent)))
    {
      ListVectorsQuery(namespace, cursor);
      var res;
      sent, res := Request(ListVectorsCall(namespace, cursor), fetch);
      result := ContentOf(res);
    }

    /** listAllVectors as written: the record count `n` is never increased
        and `next_cursor` is never taken from a response, so when `limit` is
        above zero exactly one page is fetched, without a cursor, and its
        records are returned; otherwise nothing is fetched.  The `break` of
        the source is the flag `stop`. */
    method ListAllVectors<V, F>(namespace: string, limit: Option<Limit>,
                                fetch: HttpRequest<()> -> Response<Page<V, F>>)
      returns (result: Result<seq<Vector<V, F>>, Exception>, requests: seq<HttpRequest<()>>)
      ensures !Below(0.0, LimitOrDefault(limit)) ==> requests == [] && result == Success([])
      ensures Below(0.0, LimitOrDefault(limit)) ==>
                && |requests| == 1
                && requests[0].httpMethod == "GET"
                && requests[0].url == baseUrl + VectorsPath(namespace)
                && requests[0].searchParams == []
                && result == match MapPayload(fetch(requests[0]))
                             case Success(p) => Success(Rows(p.content.columns))
                             case Failure(e) => Failure(e)
    {
      var limit := LimitOrDefault(limit);
      var n: real := 0.0;
      var nextCursor: Option<string> := None;
      var allVectors: seq<Vector<V, F>> := [];
      requests := [];
      var stop := false;
      while !stop && Below(n, limit)
        invariant !stop ==> requests == [] && allVectors == []
        invariant stop ==> Below(n, limit) && |requests| == 1
        invariant stop ==> requests[0].httpMethod == "GET"
        invariant stop ==> requests[0].url == baseUrl + VectorsPath(namespace)
        invariant stop ==> requests[0].searchParams == []
        invariant stop ==> MapPayload(fetch(requests[0])).Success?
        invariant stop ==> allVectors == Rows(MapPayload(fetch(requests[0])).value.content.columns)
        decreases !stop
      {
        var sent, res := ListVectors(namespace, nextCursor, fetch);
        requests := requests + [sent];
        if res.Failure? {
          return Failure(res.error), requests;
        }
        var page := ConvertToArrayOfVectors(res.value.columns);
        allVectors := allVectors + page;
        if nextCursor.None? {
          stop := true;
        }
      }
      result := Success(allVectors);
    }
 
    /** deleteNamespace: a DELETE of the namespace's path, without query or body. */
    method DeleteNamespace<T>(namespace: string, fetch: HttpRequest<()> -> Response<T>)
      returns (sent: HttpRequest<()>, result: Result<Payload<T>, Exception>)
      ensures sent.httpMethod == "DELETE" && sent.url == baseUrl + VectorsPath(namespace)
      ensures sent.searchParams == [] && sent.body == NoBody
      ensures Get(sent.headers, "Content-Encoding") == None
      ensures result == MapPayload(fetch(sent))
    {
      sent, result := Request(DeleteNamespaceCall(namespace), fetch);
    }

    /** queryVectors: every argument but `namespace` is posted, uncompressed,
        to the namespace's query path. */
    method QueryVectors<Q, T>(namespace: string, rest: Q, fetch: HttpRequest<Q> -> Response<T>)
      returns (sent: HttpRequest<Q>, result: Result<Payload<T>, Exception>)
      ensures sent.httpMethod == "POST" && sent.url == baseUrl + VectorsPath(namespace) + "/query"
      ensures sent.searchParams == [] && sent.body == Json(rest)
      ensures Get(sent.headers, "Content-Encoding") == None
      ensures result == MapPayload(fetch(sent))
    {
      sent, result := Request(QueryVectorsCall(namespace, rest), fetch);
      assert baseUrl + (VectorsPath(namespace) + "/query") == baseUrl + VectorsPath(namespace) + "/query";
    }

    /** upsertVectors: the records are turned into the column-oriented body,
        which is sent gzip-compressed.  An empty list throws before any
        request is made. */
    method UpsertVectors<V, F, T>(namespace: string, vectors: seq<Vector<V, F>>,
                                  fetch: HttpRequest<Columns<V, F>> -> Response<T>)
      returns (sent: Option<HttpRequest<Columns<V, F>>>, result: Result<Payload<T>, Exception>)
      ensures vectors == [] ==> sent == None && result.Failure? && result.error.TypeError?
      ensures vectors != [] ==>
                && sent.Some?
                && sent.value.httpMethod == "POST"
                && sent.value.url == baseUrl + VectorsPath(namespace)
                && sent.value.searchParams == []
                && sent.value.body == Gzip(FromArrayOfVectors(vectors))
                && Get(sent.value.headers, "Content-Encoding") == Some("gzip")
                && result == MapPayload(fetch(sent.value))
    {
      var requestBody := UpsertVectorsCall(namespace, vectors);
      if requestBody.Failure? {
        return None, Failure(requestBody.error);
      }
      var request;
      request, result := Request(requestBody.value, fetch);
      sent := Some(request);
    }
  }
}

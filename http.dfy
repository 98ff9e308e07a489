/** The request executor's decisions in src/index.ts, with `fetch`, gzip and
    JSON left abstract: which query entries are sent, which headers, which
    body, how a parsed payload becomes a value or a thrown error, and which
    call each public method makes. */
module Http {
  import opened Wrappers
  import opened JsObject
  import opened Transcode

  /** A value of a query object.  `Defined` carries the text its
      `toString()` produces. */
  datatype QueryValue = Undefined | Null | Defined(text: string)

  /** The argument object of `request({method, path, query, body, compress})`,
      with `method` renamed `httpMethod`.  A missing `body` is `None`; a
      missing `compress` is `false`. */
  datatype Call<B> = Call(
    httpMethod: string,
    path: string,
    query: Option<Object<QueryValue>>,
    body: Option<B>,
    compress: bool)

  /** What is sent as the request body: nothing, the JSON text of a value,
      or the gzip-compressed JSON text of a value. */
  datatype Body<B> = NoBody | Json(value: B) | Gzip(value: B)

  /** The request handed to `fetch`: method, URL before its query string,
      the appended search parameters, the headers object and the body. */
  datatype HttpRequest<B> = HttpRequest(
    httpMethod: string,
    url: string,
    searchParams: seq<(string, string)>,
    headers: Object<string>,
    body: Body<B>)

  /** A parsed JSON payload: its `status` and `error` fields (`None` when
      missing or not a string) and the rest of it. */
  datatype Payload<T> = Payload(status: Option<string>, error: Option<string>, content: T)

  /** What `fetch` and `res.json()` yield: the HTTP status and the payload. */
  datatype Response<T> = Response(status: int, json: Payload<T>)

  /** What a call throws: the service's error, or the `TypeError` raised when
      an upsert is given no records. */
  datatype Exception = TurboPufferError(error: string, status: int) | TypeError(message: string)

  // ---------------------------------------------------------------------
  // Query parameters

  /** The search parameters one query entry contributes: none when the value
      is `null` or `undefined`, otherwise the key with the value's text. */
  function QueryEntry(e: (string, QueryValue)): seq<(string, string)> {
    if e.1.Defined? then [(e.0, e.1.text)] else []
  }

  /** The search parameters appended for a query object, entry by entry. */
  function SerializeQuery(q: seq<(string, QueryValue)>): seq<(string, string)> {
    if q == [] then [] else SerializeQuery(q[..|q| - 1]) + QueryEntry(q[|q| - 1])
  }

  /** A parameter is sent exactly when the query holds its key with a value
      that is neither `null` nor `undefined`, and it carries that value's text. */
  lemma {:induction false} SerializeQueryMembership(q: seq<(string, QueryValue)>, k: string, s: string)
    ensures (k, s) in SerializeQuery(q) <==> (k, Defined(s)) in q
  {
    if q != [] {
      var init := q[..|q| - 1];
      SerializeQueryMembership(init, k, s);
      assert q == init + [q[|q| - 1]];
    }
  }

  /** Parameters are sent in the order of their keys in the query object. */
  lemma {:induction false} SerializeQueryInOrder(q: seq<(string, QueryValue)>, i: nat, j: nat)
    requires i < j < |SerializeQuery(q)|
    ensures exists a, b :: 0 <= a < b < |q|
              && q[a] == (SerializeQuery(q)[i].0, Defined(SerializeQuery(q)[i].1))
              && q[b] == (SerializeQuery(q)[j].0, Defined(SerializeQuery(q)[j].1))
  {
    var r := SerializeQuery(q);
    var init := q[..|q| - 1];
    var p := SerializeQuery(init);
    assert r == p + QueryEntry(q[|q| - 1]);
    if j < |p| {
      SerializeQueryInOrder(init, i, j);
      var a, b :| 0 <= a < b < |init|
                 && init[a] == (p[i].0, Defined(p[i].1))
                 && init[b] == (p[j].0, Defined(p[j].1));
      assert q[a] == init[a] && q[b] == init[b];
    } else {
      var b := |q| - 1;
      assert r[j] == (q[b].0, q[b].1.text) && q[b].1.Defined?;
      assert r[i] == p[i] && p[i] in p;
      SerializeQueryMembership(init, p[i].0, p[i].1);
      var a :| 0 <= a < |init| && init[a] == (p[i].0, Defined(p[i].1));
      assert q[a] == init[a];
    }
  }

  /** A query object sends each of its keys at most once. */
  lemma SerializeQueryDistinct(q: Object<QueryValue>)
    ensures DistinctKeys(SerializeQuery(q))
  {
    var r := SerializeQuery(q);
    forall i, j | 0 <= i < j < |r| ensures r[i].0 != r[j].0 {
      SerializeQueryInOrder(q, i, j);
    }
  }

  // ---------------------------------------------------------------------
  // Headers and error mapping

  /** The `Authorization` header: the token in a template literal, so an
      absent token is sent as the text "undefined". */
  function AuthorizationValue(token: Option<string>): string {
    "Bearer " + if token.Some? then token.value else "undefined"
  }

  /** `json.error || 'error'`: the service's message, or the fallback text
      when the message is missing or empty. */
  function ErrorMessage(error: Option<string>): (m: string)
    ensures m != ""
    ensures error.Some? && error.value != "" ==> m == error.value
    ensures error.None? || error.value == "" ==> m == "error"
  {
    if error.Some? && error.value != "" then error.value else "error"
  }

  /** A payload whose `status` is "error" becomes a `TurboPufferError`
      carrying the HTTP status; any other payload is returned unchanged. */
  function MapPayload<T>(res: Response<T>): (r: Result<Payload<T>, Exception>)
    ensures r.Failure? <==> res.json.status == Some("error")
    ensures r.Success? ==> r.value == res.json
    ensures r.Failure? ==>
              && r.error.TurboPufferError?
              && r.error.status == res.status
              && r.error.error == ErrorMessage(res.json.error)
  {
    if res.json.status == Some("error") then
      Failure(TurboPufferError(ErrorMessage(res.json.error), res.status))
    else
      Success(res.json)
  }

  /** The content of a returned payload, as `listVectors` hands it on. */
  function ContentOf<T>(r: Result<Payload<T>, Exception>): Result<T, Exception> {
    match r
    case Success(p) => Success(p.content)
    case Failure(e) => Failure(e)
  }

  // ---------------------------------------------------------------------
  // The calls the public methods make

  /** The path of a namespace's vectors. */
  function VectorsPath(namespace: string): string {
    "/v1/vectors/" + namespace
  }

  /** Distinct namespaces are addressed by distinct paths. */
  lemma VectorsPathInjective(a: string, b: string)
    requires VectorsPath(a) == VectorsPath(b)
    ensures a == b
  {
    var n := |"/v1/vectors/"|;
    assert a == VectorsPath(a)[n..];
    assert b == VectorsPath(b)[n..];
  }

  /** listVectors: GET the namespace's vectors with `{cursor}` as query. */
  function ListVectorsCall(namespace: string, cursor: Option<string>): Call<()> {
    var value := if cursor.Some? then Defined(cursor.value) else Undefined;
    Call("GET", VectorsPath(namespace), Some([("cursor", value)]), None, false)
  }

  /** deleteNamespace: DELETE the namespace's vectors, no query and no body. */
  function DeleteNamespaceCall(namespace: string): Call<()> {
    Call("DELETE", VectorsPath(namespace), None, None, false)
  }

  /** queryVectors: POST every argument but `namespace` to the query path. */
  function QueryVectorsCall<Q>(namespace: string, rest: Q): Call<Q> {
    Call("POST", VectorsPath(namespace) + "/query", None, Some(rest), false)
  }

  /** upsertVectors: POST the column-oriented body, compressed.  With no
      records, reading `vecs[0].attributes` throws before any request. */
  function UpsertVectorsCall<V, F>(namespace: string, vectors: seq<Vector<V, F>>)
    : (r: Result<Call<Columns<V, F>>, Exception>)
    ensures r.Failure? <==> vectors == []
    ensures r.Failure? ==> r.error.TypeError?
    ensures r.Success? ==>
              && r.value.httpMethod == "POST" && r.value.compress
              && r.value.path == VectorsPath(namespace)
              && r.value.body == Some(FromArrayOfVectors(vectors))
  {
    if vectors == [] then
      Failure(TypeError("Cannot read properties of undefined (reading 'attributes')"))
    else
      Success(Call("POST", VectorsPath(namespace), None, Some(FromArrayOfVectors(vectors)), true))
  }

  /** Listing, deleting and upserting address one path per namespace, and
      querying addresses that path followed by "/query". */
  lemma CallPaths<Q, V, F>(namespace: string, cursor: Option<string>, rest: Q, vectors: seq<Vector<V, F>>)
    requires vectors != []
    ensures ListVectorsCall(namespace, cursor).path == DeleteNamespaceCall(namespace).path
    ensures UpsertVectorsCall(namespace, vectors).value.path == DeleteNamespaceCall(namespace).path
    ensures QueryVectorsCall(namespace, rest).path == DeleteNamespaceCall(namespace).path + "/query"
    ensures DeleteNamespaceCall(namespace).path[..|"/v1/vectors/"|] == "/v1/vectors/"
  {
  }

  /** A listing call without a cursor sends no search parameters; one with a
      cursor sends exactly that cursor. */
  lemma ListVectorsQuery(namespace: string, cursor: Option<string>)
    ensures SerializeQuery(ListVectorsCall(namespace, cursor).query.value)
            == if cursor.Some? then [("cursor", cursor.value)] else []
  {
  }
}

# turbopuffer-sdk client core, modelled in Dafny

This project models the TypeScript client of the turbopuffer vector-database
service (`src/index.ts`). It covers three parts of that file.

- **The vector-shape transcoder.** Callers see row-oriented records
  `{id, vector, attributes?}`. The service speaks a column-oriented shape
  `{ids, vectors, attributes: {field: values[]}}`.
  `convertToArrayOfVectors` turns a listing page into records.
  `fromArrayOfVectors` turns records into an upsert body.
- **The list-all driver.** `listAllVectors` is modelled exactly as written.
  It fetches at most one page, always without a cursor.
- **The request executor's decisions.** `request` decides which query
  entries are sent, which headers are set, and which body is sent (plain
  JSON or gzip). It also maps an error payload to a thrown
  `TurboPufferError`. The public methods each build one call to it, with
  its own path.

Files, one module each:

- `wrappers.dfy`: `Option` (for JavaScript's `undefined`) and `Result` (returns or throws).
- `js_object.dfy`: plain JavaScript objects as ordered entry sequences with distinct keys.
- `transcode.dfy`: records, columns, pages, both conversions, and the round trips.
- `http.dfy`: query serialisation, headers, error mapping, and the calls behind the public methods.
- `client.dfy`: the class `TurboPufferApiClientV1` and its methods.
- `pagination.dfy`: the cursor-following driver the code evidently intends (see Findings).

The network is a parameter. `fetch` is a function from the request handed
over to the HTTP status and the parsed JSON payload. Each method also
returns the request(s) it sent, so contracts can speak about them.

## Model

| member | source | states |
|---|---|---|
| `Transcode.ConvertToArrayOfVectors` | src/index.ts:188-207 | Returns exactly one record per id, in order. Record `i` has `ids[i]` and `vectors[i]` (undefined past the end of `vectors`). It has attributes iff the page has them; if so, it has the page's keys in the page's order, each mapped to that column's entry `i`. |
| `Transcode.FromArrayOfVectors` | src/index.ts:208-220 | Requires a non-empty list, because it reads `vecs[0]`. `ids` and `vectors` are the positional maps of the records. `attributes` is always present and has exactly the first record's keys. Every column has one entry per record: entry `i` is record `i`'s value, or undefined when that record lacks the key. The result satisfies the equal-length shape invariant. |
| `Transcode.RowsOfFromArray` | src/index.ts:188-220 | Converting an upsert body back gives every record its id and vector. Its attributes are restricted to the first record's keys, in the first record's order. |
| `Transcode.RoundTrip` | src/index.ts:188-220 | Take a non-empty list whose records all have attributes with the first record's keys, in the same order. Converting it to columns and back returns the list unchanged. |
| `Transcode.RoundTripSameKeySet` | src/index.ts:188-220 | Take a non-empty list whose records all have attributes with the first record's key set, in any order. Converting it to columns and back returns every record with its id, its vector, and the same value under every key; only the order of its keys may change. |
| `Transcode.RoundTripWithoutAttributes` | src/index.ts:215-219 | If the first record has no attributes, every record comes back with an empty attributes object, not with none. |
| `Transcode.FromArrayOfRows` | src/index.ts:188-220 | Take a non-empty column shape whose columns are all as long as `ids`. Converting it to records and back gives the same shape. If the shape had no attributes, it comes back with an empty attributes object. |
| `Transcode.UpsertExample` | src/index.test.ts:12 | The integration test's record `{id: 1, vector: [1,2,3], attributes: {hello: 'ciao'}}` becomes the body `{ids: [1], vectors: [[1,2,3]], attributes: {hello: ['ciao']}}`. |
| `Transcode.ListingExample` | src/index.ts:188-207 | A two-id page with the attribute column `c: ['a','b']` becomes two records, with `c` equal to `'a'` and `'b'` respectively. |
| `Http.SerializeQueryMembership` | src/index.ts:42-48 | A search parameter `(k, s)` is sent iff the query holds `k` with a value that is neither null nor undefined and whose string form is `s`. |
| `Http.SerializeQueryInOrder` | src/index.ts:42-48 | Search parameters appear in the order of their keys in the query object. |
| `Http.SerializeQueryDistinct` | src/index.ts:42-48 | Each key of a query object is sent at most once. |
| `Http.ListVectorsQuery` | src/index.ts:93-97 | A listing call without a cursor sends no search parameters. With a cursor it sends exactly `cursor=<value>`. |
| `Http.ErrorMessage` | src/index.ts:72 | The thrown message is never empty. It is the service's `error` text when that is present and non-empty, and otherwise `'error'`. |
| `Http.MapPayload` | src/index.ts:71-77 | A call throws iff the payload's `status` is `'error'`. The `TurboPufferError` it throws carries the HTTP status and the message above. Any other payload is returned unchanged. |
| `Http.UpsertVectorsCall` | src/index.ts:165-179 | An upsert fails, with a `TypeError` before any request, iff the list is empty. Otherwise it is a compressed POST of the namespace path whose body is `FromArrayOfVectors` of the records. |
| `Http.VectorsPathInjective` | src/index.ts:95 | Distinct namespaces give distinct path strings `/v1/vectors/<namespace>`, before URL resolution. |
| `Http.CallPaths` | src/index.ts:93-178 | Listing, deleting and upserting use the same path `/v1/vectors/<namespace>`. Querying uses that path followed by `/query`. |
| `Client.TurboPufferApiClientV1.constructor` | src/index.ts:22-25 | The base URL defaults to `https://api.turbopuffer.com`. The token is kept as given, even when absent. |
| `Client.TurboPufferApiClientV1.Request` | src/index.ts:27-78 | The URL is the base URL followed by the path. The search parameters are the serialised query, or none when there is no query. The headers always hold `Content-Type: application/json`, `Accept-Encoding: gzip` and `Authorization: Bearer <token>` (`Bearer undefined` without a token). `Content-Encoding: gzip` is added iff `compress` is set and a body is present. A body is sent iff one is given: gzip-compressed when `compress` is set, plain JSON otherwise. The result is the error mapping of the reply. |
| `Client.TurboPufferApiClientV1.ListVectors` | src/index.ts:80-98 | A GET of the namespace path, with no body, with the cursor as the only possible parameter. It returns the content of the mapped reply. |
| `Client.TurboPufferApiClientV1.ListAllVectors` | src/index.ts:99-131 | An omitted `limit` is `Infinity`. When `limit` is not above zero, nothing is requested and the result is `[]`. Otherwise exactly one request is made: a GET of the namespace path with no parameters, so no cursor. The result is that page's records, or the error it maps to. The page's `next_cursor` never influences the result. |
| `Client.TurboPufferApiClientV1.DeleteNamespace` | src/index.ts:132-137 | A DELETE of the namespace path, with no parameters and no body. No `Content-Encoding` header is sent. It returns the mapped reply. |
| `Client.TurboPufferApiClientV1.QueryVectors` | src/index.ts:139-164 | A POST to `<namespace path>/query`. Every argument except `namespace` is sent as an uncompressed JSON body. It returns the mapped reply. |
| `Client.TurboPufferApiClientV1.UpsertVectors` | src/index.ts:165-179 | With no records, nothing is sent and a `TypeError` is thrown. Otherwise a POST of the namespace path is sent. Its body is the gzip of `FromArrayOfVectors(vectors)`, with `Content-Encoding: gzip`. It returns the mapped reply. |
| `Pagination.ListAllVectorsFollowingCursors` | src/index.ts:99-131 | Corrected driver: pages are fetched by following `next_cursor`, while the number of collected records stays below `limit`. The result is the records of the walked pages in page order, or the first error. |
| `Pagination.GatherUnlimited` | src/index.ts:99-131 | With no limit and no errors, the corrected driver returns the concatenation of every page's records, in page order. |
| `Pagination.GatherNothingBelowZero` | src/index.ts:119 | With a limit at or below zero, the corrected driver fetches nothing and returns `[]`. |
| `Pagination.SecondPageIsLost` | src/index.ts:112-128 | Take two pages linked by the cursor `"c"` and no limit. The loop as written returns only the first page's record. The corrected loop returns both. |

## Findings

| source | as written | input that shows it | evidently intended | confidence | as-written member | corrected member |
|---|---|---|---|---|---|---|
| src/index.ts:112-128 | The loop never increases `n` and never assigns `next_cursor` from the response. So `if (!next_cursor) break` always fires and only the first page is ever returned. | A service with two pages linked by cursor `"c"`, called with the default limit: only the first page's record is returned. | Follow `next_cursor` until it is absent, counting the collected records in `n` against `limit`. | high; not executed | `Client.TurboPufferApiClientV1.ListAllVectors`, `Pagination.SecondPageIsLost` | `Pagination.ListAllVectorsFollowingCursors` |

The list-all driver follows the code. Its name, its `limit` parameter and
its `next_cursor` variable describe a walk over every page until the cursor
runs out, but the code fetches one page.
`Client.TurboPufferApiClientV1.ListAllVectors` is the code's behaviour; the
corrected driver is kept beside it.

## Left out

- Network I/O: `fetch`, `res.json()`, `async`/`await`. The exchange is the `fetch` parameter. Network failures and a reply that is not JSON (or is JSON `null`) are not modelled.
- `URL` and `url.searchParams`: the URL is the base URL followed by the path, as text. Search parameters are kept as a list of pairs. Percent-encoding, the resolution of `.` and `..` segments in a namespace, and any query string already in the base URL are not modelled, so distinct namespaces may still reach the same URL.
- `pako.gzip` and `JSON.stringify`: the body records only which encoding was chosen (`Json` or `Gzip`) and the value encoded, not the bytes.
- A configuration error for a missing compression routine: the code imports `pako` statically and has no such error path, so the model has none.
- `TurboPufferError`'s inheritance from `Error`: it is a plain datatype `{error, status}`.
- JavaScript truthiness of `body` and `query`: a body or query is either present or absent. A present but falsy body (`0`, `''`, `false`, `null`) would be sent without a body by the source; the model treats every present body as truthy.
- `toString()` of query values: a defined query value carries its string form. How JavaScript stringifies numbers or objects is not modelled.
- `json.error` that is not a string: `error` is a string or missing. A truthy non-string error would be stringified by `Error`; this is not modelled.
- Inherited properties: `v.attributes?.[key]` and other property reads look at own properties only. A key such as `constructor` or `toString` that a record lacks would find `Object.prototype`'s member in the source; the model gives undefined.
- Object key order: objects are kept in insertion order. JavaScript lists integer-like keys first in ascending order; that is not modelled.
- The `limit` of `listAllVectors` is a JavaScript number: a finite real, positive or negative infinity, or NaN. Nothing else about floating point is modelled. Vector components and attribute values are opaque and passed through untouched.
- Extra fields passed to `upsertVectors` (such as `distance_metric`) are ignored by the source, which destructures only `namespace` and `vectors`. The model's signature takes only those two.
- The body of `queryVectors` is an opaque value: the client forwards it unchanged.
- Reassigning the public `token` field after construction is not modelled; `baseUrl` and `token` are constants of the object.
- src/index.test.ts is a live integration test that needs a network and a token. It is not modelled. Its upsert input appears as `Transcode.UpsertExample`.
- Client.TurboPufferApiClientV1.ListVectors: states only the parts of its request that differ between calls; its other headers are those that `Client.TurboPufferApiClientV1.Request` states for every request.
- Client.TurboPufferApiClientV1.DeleteNamespace: states only the parts of its request that differ between calls; its other headers are those that `Client.TurboPufferApiClientV1.Request` states for every request.
- Client.TurboPufferApiClientV1.QueryVectors: states only the parts of its request that differ between calls; its other headers are those that `Client.TurboPufferApiClientV1.Request` states for every request.
- Client.TurboPufferApiClientV1.UpsertVectors: states only the parts of its request that differ between calls; its other headers are those that `Client.TurboPufferApiClientV1.Request` states for every request.

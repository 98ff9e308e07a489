/** What `listAllVectors` evidently means to do: follow `next_cursor` from
    page to page, counting the records collected in `n`, until the service
    returns no cursor or `n` reaches `limit`.  The listing service is the
    function `listPage` from cursor to page (or thrown error), and the pages
    it hands out are a cursor-linked chain. */
module Pagination {
  import opened Wrappers
  import opened Transcode
  import opened Http
  import opened Client

  /** `if (!next_cursor) break` does not fire: a cursor that is present and
      not the empty string. */
  predicate HasNext<V, F>(p: Page<V, F>) {
    p.nextCursor.Some? && p.nextCursor.value != ""
  }

  /** The answers a listing service gives when walked from the start:
      the first answers the call without cursor, each further one answers the
      cursor of the page before, and the walk ends at an error or at a page
      without cursor. */
  ghost predicate Chain<V, F>(listPage: Option<string> -> Result<Page<V, F>, Exception>,
                              responses: seq<Result<Page<V, F>, Exception>>)
  {
    && |responses| > 0
    && listPage(None) == responses[0]
    && (forall k :: 0 <= k < |responses| - 1 ==>
          responses[k].Success? && HasNext(responses[k].value)
          && listPage(responses[k].value.nextCursor) == responses[k + 1])
    && (responses[|responses| - 1].Failure? || !HasNext(responses[|responses| - 1].value))
  }

  /** Prefix the records of a successful result. */
  function Prepend<V, F>(records: seq<Vector<V, F>>, r: Result<seq<Vector<V, F>>, Exception>)
    : Result<seq<Vector<V, F>>, Exception>
  {
    match r
    case Success(rest) => Success(records + rest)
    case Failure(e) => Failure(e)
  }

  lemma PrependPrepend<V, F>(a: seq<Vector<V, F>>, b: seq<Vector<V, F>>, r: Result<seq<Vector<V, F>>, Exception>)
    ensures Prepend(a, Prepend(b, r)) == Prepend(a + b, r)
  {
    if r.Success? {
      assert a + (b + r.value) == (a + b) + r.value;
    }
  }

  lemma PrependNothing<V, F>(a: seq<Vector<V, F>>, r: Result<seq<Vector<V, F>>, Exception>)
    ensures Prepend([], r) == r
    ensures Prepend(a, Success([])) == Success(a)
  {
    if r.Success? {
      assert [] + r.value == r.value;
    }
    assert a + [] == a;
  }

  /** The records gathered from `responses` when `n` records are already
      collected: a page is fetched only while `n` is below `limit`, and the
      first error is thrown. */
  function Gather<V, F>(responses: seq<Result<Page<V, F>, Exception>>, n: real, limit: Limit)
    : Result<seq<Vector<V, F>>, Exception>
  {
    if responses == [] || !Below(n, limit) then Success([])
    else match responses[0]
      case Failure(e) => Failure(e)
      case Success(p) =>
        Prepend(Rows(p.columns), Gather(responses[1..], n + |p.columns.ids| as real, limit))
  }

  /** The records of a sequence of pages, in page order. */
  function Flatten<V, F>(pages: seq<Page<V, F>>): seq<Vector<V, F>> {
    if pages == [] then [] else Rows(pages[0].columns) + Flatten(pages[1..])
  }

  /** Without a limit, every page of an error-free walk is collected and the
      result is the concatenation of all pages' records in page order. */
  lemma {:induction false} GatherUnlimited<V, F>(responses: seq<Result<Page<V, F>, Exception>>, n: real)
    requires forall k :: 0 <= k < |responses| ==> responses[k].Success?
    ensures Gather(responses, n, PositiveInfinity)
            == Success(Flatten(seq(|responses|, k requires 0 <= k < |responses| => responses[k].value)))
  {
    var pages := seq(|responses|, k requires 0 <= k < |responses| => responses[k].value);
    if responses != [] {
      var p := responses[0].value;
      GatherUnlimited(responses[1..], n + |p.columns.ids| as real);
      assert pages[1..] == seq(|responses[1..]|, k requires 0 <= k < |responses[1..]| => responses[1..][k].value);
    }
  }

  /** A limit at or below zero fetches nothing. */
  lemma GatherNothingBelowZero<V, F>(responses: seq<Result<Page<V, F>, Exception>>, limit: Limit)
    requires !Below(0.0, limit)
    ensures Gather(responses, 0.0, limit) == Success([])
  {
  }

  /** listAllVectors with the cursor followed and the count kept. */
  method ListAllVectorsFollowingCursors<V, F>(limit: Limit,
                                              listPage: Option<string> -> Result<Page<V, F>, Exception>,
                                              ghost responses: seq<Result<Page<V, F>, Exception>>)
    returns (result: Result<seq<Vector<V, F>>, Exception>)
    requires Chain(listPage, responses)
    ensures result == Gather(responses, 0.0, limit)
  {
    var n: real := 0.0;
    var nextCursor: Option<string> := None;
    var allVectors: seq<Vector<V, F>> := [];
    ghost var k := 0;
    var stop := false;
    assert responses[k..] == responses;
    PrependNothing(allVectors, Gather(responses, n, limit));
    while !stop && Below(n, limit)
      invariant 0 <= k <= |responses|
      invariant !stop ==> k < |responses| && listPage(nextCursor) == responses[k]
      invariant !stop ==> Prepend(allVectors, Gather(responses[k..], n, limit)) == Gather(responses, 0.0, limit)
      invariant stop ==> Success(allVectors) == Gather(responses, 0.0, limit)
      decreases |responses| - k
    {
      var res := listPage(nextCursor);
      assert responses[k..][0] == responses[k];
      if res.Failure? {
        return Failure(res.error);
      }
      ghost var p := res.value;
      ghost var n' := n + |p.columns.ids| as real;
      assert responses[k..][1..] == responses[k + 1..];
      assert Gather(responses[k..], n, limit) == Prepend(Rows(p.columns), Gather(responses[k + 1..], n', limit));
      PrependPrepend(allVectors, Rows(p.columns), Gather(responses[k + 1..], n', limit));
      var page := ConvertToArrayOfVectors(res.value.columns);
      allVectors := allVectors + page;
      n := n + |res.value.columns.ids| as real;
      nextCursor := res.value.nextCursor;
      k := k + 1;
      if !HasNext(res.value) {
        assert k == |responses|;
        assert responses[k..] == [];
        PrependNothing(allVectors, Success([]));
        stop := true;
      }
    }
    if !stop {
      PrependNothing(allVectors, Success([]));
    }
    result := Success(allVectors);
  }

  /** Two pages linked by the cursor "c".  The loop as written returns the
      first page's record only; the cursor-following loop returns both. */
  method SecondPageIsLost()
    returns (asWritten: Result<seq<Vector<string, int>>, Exception>,
             intended: Result<seq<Vector<string, int>>, Exception>)
    ensures asWritten == Success([Vector(1, Some([0]), None)])
    ensures intended == Success([Vector(1, Some([0]), None), Vector(2, Some([1]), None)])
  {
    var first: Page<string, int> := Page(Columns([1], [Some([0])], None), Some("c"));
    var second: Page<string, int> := Page(Columns([2], [Some([1])], None), None);
    var client := new TurboPufferApiClientV1(None, Some("token"));
    var fetch := (r: HttpRequest<()>) =>
      Response(200, Payload(None, None, if r.searchParams == [] then first else second));
    var requests;
    asWritten, requests := client.ListAllVectors("ns", None, fetch);
    assert Rows(first.columns) == [Vector(1, Some([0]), None)];

    var listPage := (cursor: Option<string>) => if cursor.Some? then Success(second) else Success(first);
    intended := ListAllVectorsFollowingCursors(PositiveInfinity, listPage, [Success(first), Success(second)]);
    assert Rows(second.columns) == [Vector(2, Some([1]), None)];
    var responses := [Success(first), Success(second)];
    GatherUnlimited(responses, 0.0);
    var pages := seq(|responses|, k requires 0 <= k < |responses| => responses[k].value);
    assert pages == [first, second] && pages[1..] == [second] && pages[1..][1..] == [];
    assert Flatten(pages[1..]) == Rows(second.columns) + Flatten([]);
    assert Flatten(pages) == [Vector(1, Some([0]), None), Vector(2, Some([1]), None)];
    assert Gather(responses, 0.0, PositiveInfinity) == Success([Vector(1, Some([0]), None), Vector(2, Some([1]), None)]);
  }
}

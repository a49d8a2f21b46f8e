/**
 * The full-collection walk shared by `getAllCharacters` and `getAllLocations`: fetch page 1,
 * read its `info.pages`, request pages 2..pages, and concatenate the results in page order
 * (src/app/data-access/services/character.ts, src/app/data-access/services/location.ts).
 */
module PageWalker {
  import opened Wrappers
  import opened Fetching

  /** A list service function for one filter type: variables in, a validated page or an error message out. */
  type PageFetcher<!F, T> = Variables<F> -> Result<Page<T>, string>

  /** The variables of the request for page `p` under `filter`. */
  function PageRequest<F>(p: int, filter: Option<F>): Variables<F>
  {
    Variables(Some(p), filter)
  }

  /** `Array.from({ length: totalPages - 1 }, (_, i) => i + 2)`: the page numbers after the first. */
  function RemainingPages(totalPages: int): (pages: seq<int>)
    ensures |pages| == if totalPages > 1 then totalPages - 1 else 0
    ensures forall k :: 0 <= k < |pages| ==> pages[k] == k + 2
  {
    if totalPages <= 1 then [] else RemainingPages(totalPages - 1) + [totalPages]
  }

  /** The responses to the requests for `pages`, in the order of `pages` (`pages.map(...)`). */
  function Responses<F, T>(getPage: PageFetcher<F, T>, filter: Option<F>, pages: seq<int>): (rs: seq<Result<Page<T>, string>>)
    ensures |rs| == |pages|
    ensures forall k :: 0 <= k < |pages| ==> rs[k] == getPage(PageRequest(pages[k], filter))
  {
    seq(|pages|, k requires 0 <= k < |pages| => getPage(PageRequest(pages[k], filter)))
  }

  /** The variables of the requests for `pages` under `filter`, in the order of `pages`. */
  function Requests<F>(pages: seq<int>, filter: Option<F>): (vars: seq<Variables<F>>)
    ensures |vars| == |pages|
    ensures forall k :: 0 <= k < |pages| ==> vars[k] == PageRequest(pages[k], filter)
  {
    seq(|pages|, k requires 0 <= k < |pages| => PageRequest(pages[k], filter))
  }

  /**
   * The page numbers a walk requests, in the order it issues them: page 1, then, when page 1
   * succeeds and reports `pages > 1`, pages 2..pages.
   */
  function RequestedPages<F, T>(getPage: PageFetcher<F, T>, filter: Option<F>): (pages: seq<int>)
    ensures 1 <= |pages|
    ensures forall k :: 0 <= k < |pages| ==> pages[k] == k + 1
    ensures getPage(PageRequest(1, filter)).Err? ==> |pages| == 1
    ensures getPage(PageRequest(1, filter)).Ok? ==>
              |pages| == var total := getPage(PageRequest(1, filter)).value.info.pages; if total > 1 then total else 1
  {
    match getPage(PageRequest(1, filter))
    case Err(_) => [1]
    case Ok(first) => [1] + RemainingPages(first.info.pages)
  }

  /** The results of a sequence of pages, one after the other. */
  function Flatten<T>(pages: seq<Page<T>>): seq<T>
  {
    if pages == [] then [] else Flatten(pages[..|pages| - 1]) + pages[|pages| - 1].results
  }

  /** The total number of results on a sequence of pages. */
  function TotalResults<T>(pages: seq<Page<T>>): nat
  {
    if pages == [] then 0 else TotalResults(pages[..|pages| - 1]) + |pages[|pages| - 1].results|
  }

  /** The responses to every request of a walk, in page order. */
  function WalkResponses<F, T>(getPage: PageFetcher<F, T>, filter: Option<F>): seq<Result<Page<T>, string>>
  {
    Responses(getPage, filter, RequestedPages(getPage, filter))
  }

  /** The whole collection, in page order, when every request of a walk succeeds; None otherwise. */
  function Collected<F, T>(getPage: PageFetcher<F, T>, filter: Option<F>): Option<seq<T>>
  {
    var joined := JoinAll(WalkResponses(getPage, filter));
    if joined.Ok? then Some(Flatten(joined.value)) else None
  }

  /**
   * What a walk may return: when every requested page succeeds, the concatenation of their
   * results in page order; otherwise `prefix` followed by the message of one of the requested
   * pages that failed (no partial result).
   */
  ghost predicate Walked<F, T>(getPage: PageFetcher<F, T>, filter: Option<F>, prefix: string, r: Result<seq<T>, string>)
  {
    var rs := WalkResponses(getPage, filter);
    match r
    case Ok(all) => Collected(getPage, filter) == Some(all)
    case Err(e) => exists k :: 0 <= k < |rs| && rs[k].Err? && e == prefix + rs[k].error
  }

  lemma {:induction false} FlattenAppend<T>(a: seq<Page<T>>, b: seq<Page<T>>)
    ensures Flatten(a + b) == Flatten(a) + Flatten(b)
    decreases |b|
  {
    if b == [] {
      assert a + b == a;
    } else {
      var last := |b| - 1;
      assert (a + b)[..|a + b| - 1] == a + b[..last];
      FlattenAppend(a, b[..last]);
    }
  }

  /** The concatenation holds exactly as many results as the pages together. */
  lemma {:induction false} FlattenLength<T>(pages: seq<Page<T>>)
    ensures |Flatten(pages)| == TotalResults(pages)
  {
    if pages != [] {
      FlattenLength(pages[..|pages| - 1]);
    }
  }

  /**
   * Page order: result `j` of page `p` sits right after all the results of the pages before `p`.
   */
  lemma {:induction false} FlattenAt<T>(pages: seq<Page<T>>, p: int, j: int)
    requires 0 <= p < |pages| && 0 <= j < |pages[p].results|
    ensures TotalResults(pages[..p]) + j < |Flatten(pages)|
    ensures Flatten(pages)[TotalResults(pages[..p]) + j] == pages[p].results[j]
  {
    var last := |pages| - 1;
    var init := pages[..last];
    FlattenLength(init);
    FlattenLength(pages[..p]);
    if p == last {
      assert pages[..p] == init;
    } else {
      assert init[..p] == pages[..p];
      FlattenAt(init, p, j);
    }
  }

  /**
   * The walk itself. Page 1 is requested with the caller's filter; if it reports more than one
   * page, every remaining page is requested (all before any is awaited) and joined; the results
   * are appended page by page. Any failure becomes `prefix` plus the failure's message.
   * `requested` records the variables of every request, in the order they are issued.
   */
  method FetchAllPages<F, T>(getPage: PageFetcher<F, T>, filter: Option<F>, prefix: string)
    returns (r: Result<seq<T>, string>, ghost requested: seq<Variables<F>>)
    ensures Walked(getPage, filter, prefix, r)
    ensures |requested| == |RequestedPages(getPage, filter)|
    ensures forall k :: 0 <= k < |requested| ==> requested[k] == PageRequest(k + 1, filter)
  {
    var firstPage := getPage(PageRequest(1, filter));
    requested := [PageRequest(1, filter)];
    if firstPage.Err? {
      FailedAt(getPage, filter, prefix, 0);
      return Err(prefix + firstPage.error), requested;
    }
    var first := firstPage.value;
    var totalPages := first.info.pages;
    var all := first.results;
    var results: seq<Page<T>> := [];
    if totalPages > 1 {
      var remainingPages := RemainingPages(totalPages);
      requested := requested + Requests(remainingPages, filter);
      RequestedInOrder(getPage, filter, requested);
      var responses := Responses(getPage, filter, remainingPages);
      var joined := JoinAll(responses);
      if joined.Err? {
        RemainingFailed(getPage, filter, prefix, totalPages);
        return Err(prefix + joined.error), requested;
      }
      results := joined.value;
      all := AppendResults(all, results);
    } else {
      assert RemainingPages(totalPages) == [];
      assert all == first.results + Flatten(results);
    }
    SucceededWith(getPage, filter, prefix, first, results);
    r := Ok(all);
  }

  /** Page 1's request followed by those for the remaining pages are the requests for pages 1, 2, ... of the walk. */
  lemma RequestedInOrder<F, T>(getPage: PageFetcher<F, T>, filter: Option<F>, requested: seq<Variables<F>>)
    requires getPage(PageRequest(1, filter)).Ok?
    requires requested == [PageRequest(1, filter)] + Requests(RemainingPages(getPage(PageRequest(1, filter)).value.info.pages), filter)
    ensures |requested| == |RequestedPages(getPage, filter)|
    ensures forall k :: 0 <= k < |requested| ==> requested[k] == PageRequest(k + 1, filter)
  {
  }

  /** `results.forEach(result => all.push(...result.results))`: appends the results of every page, in order. */
  method AppendResults<T>(init: seq<T>, pages: seq<Page<T>>) returns (all: seq<T>)
    ensures all == init + Flatten(pages)
  {
    all := init;
    var i := 0;
    while i < |pages|
      invariant 0 <= i <= |pages|
      invariant all == init + Flatten(pages[..i])
    {
      assert pages[..i + 1][..i] == pages[..i];
      all := all + pages[i].results;
      i := i + 1;
    }
    assert pages[..i] == pages;
  }

  /** The failure of the `k`-th request of a walk is a possible outcome of the walk. */
  lemma FailedAt<F, T>(getPage: PageFetcher<F, T>, filter: Option<F>, prefix: string, k: int)
    requires 0 <= k < |RequestedPages(getPage, filter)|
    requires getPage(PageRequest(k + 1, filter)).Err?
    ensures Walked(getPage, filter, prefix, Err(prefix + getPage(PageRequest(k + 1, filter)).error))
  {
    var rs := WalkResponses(getPage, filter);
    assert rs[k] == getPage(PageRequest(k + 1, filter));
  }

  /** When page 1 succeeds but the join of the remaining pages fails, the join's error is a possible outcome of the walk. */
  lemma RemainingFailed<F, T>(getPage: PageFetcher<F, T>, filter: Option<F>, prefix: string, totalPages: int)
    requires getPage(PageRequest(1, filter)).Ok? && getPage(PageRequest(1, filter)).value.info.pages == totalPages
    requires JoinAll(Responses(getPage, filter, RemainingPages(totalPages))).Err?
    ensures Walked(getPage, filter, prefix, Err(prefix + JoinAll(Responses(getPage, filter, RemainingPages(totalPages))).error))
  {
    var responses := Responses(getPage, filter, RemainingPages(totalPages));
    var k := FirstFailure(responses);
    FailedAt(getPage, filter, prefix, k + 1);
  }

  /** When page 1 and the join of the remaining pages succeed, the walk returns page 1's results followed by theirs. */
  lemma SucceededWith<F, T>(getPage: PageFetcher<F, T>, filter: Option<F>, prefix: string, first: Page<T>, rest: seq<Page<T>>)
    requires getPage(PageRequest(1, filter)) == Ok(first)
    requires JoinAll(Responses(getPage, filter, RemainingPages(first.info.pages))) == Ok(rest)
    ensures Walked(getPage, filter, prefix, Ok(first.results + Flatten(rest)))
  {
    JoinedWalk(getPage, filter, first, rest);
    FlattenAppend([first], rest);
    assert [first][..0] == [];
    assert Flatten([first]) == first.results;
    assert Collected(getPage, filter) == Some(Flatten([first] + rest));
  }

  /** When page 1 and the join of the remaining pages succeed, the join of the whole walk is page 1 followed by them. */
  lemma JoinedWalk<F, T>(getPage: PageFetcher<F, T>, filter: Option<F>, first: Page<T>, rest: seq<Page<T>>)
    requires getPage(PageRequest(1, filter)) == Ok(first)
    requires JoinAll(Responses(getPage, filter, RemainingPages(first.info.pages))) == Ok(rest)
    ensures JoinAll(WalkResponses(getPage, filter)) == Ok([first] + rest)
  {
    var rs := WalkResponses(getPage, filter);
    var tail := Responses(getPage, filter, RemainingPages(first.info.pages));
    assert forall k :: 0 < k < |rs| ==> rs[k] == tail[k - 1];
    var joined := JoinAll(rs);
    assert joined.value == [first] + rest;
  }

  /** A walk whose first page reports at most one page returns exactly page 1's results. */
  lemma SinglePageWalk<F, T>(getPage: PageFetcher<F, T>, filter: Option<F>, prefix: string, r: Result<seq<T>, string>)
    requires getPage(PageRequest(1, filter)).Ok? && getPage(PageRequest(1, filter)).value.info.pages <= 1
    requires Walked(getPage, filter, prefix, r)
    ensures r == Ok(getPage(PageRequest(1, filter)).value.results)
  {
    var first := getPage(PageRequest(1, filter)).value;
    var rs := WalkResponses(getPage, filter);
    assert RemainingPages(first.info.pages) == [];
    JoinedWalk(getPage, filter, first, []);
    assert forall k :: 0 <= k < |rs| ==> rs[k].Ok?;
    assert [first] + [] == [first];
    assert [first][..0] == [];
    assert Flatten([first]) == first.results;
  }

  /**
   * All or nothing: a walk succeeds exactly when every requested page succeeds, and a failure
   * carries `prefix` followed by the message of a requested page that failed.
   */
  lemma AllOrNothing<F, T>(getPage: PageFetcher<F, T>, filter: Option<F>, prefix: string, r: Result<seq<T>, string>)
    requires Walked(getPage, filter, prefix, r)
    ensures r.Ok? <==> forall p :: 1 <= p <= |RequestedPages(getPage, filter)| ==> getPage(PageRequest(p, filter)).Ok?
    ensures r.Err? ==> exists p :: 1 <= p <= |RequestedPages(getPage, filter)| && getPage(PageRequest(p, filter)).Err?
                                   && r.error == prefix + getPage(PageRequest(p, filter)).error
  {
    var rs := WalkResponses(getPage, filter);
    if r.Ok? {
      assert forall k :: 0 <= k < |rs| ==> rs[k].Ok?;
      forall p | 1 <= p <= |RequestedPages(getPage, filter)| ensures getPage(PageRequest(p, filter)).Ok? {
        ResponseAt(getPage, filter, p);
      }
    } else {
      var k :| 0 <= k < |rs| && rs[k].Err? && r.error == prefix + rs[k].error;
      ResponseAt(getPage, filter, k + 1);
    }
  }

  /**
   * Page order of a successful join: result `j` of response `p` sits right after all the results
   * of the responses before it, and the concatenation holds as many results as the pages together.
   */
  lemma JoinedInOrder<T>(rs: seq<Result<Page<T>, string>>, pages: seq<Page<T>>, p: int, j: int)
    requires JoinAll(rs) == Ok(pages)
    requires 0 <= p < |rs| && rs[p].Ok? && 0 <= j < |rs[p].value.results|
    ensures |Flatten(pages)| == TotalResults(pages)
    ensures TotalResults(pages[..p]) + j < |Flatten(pages)|
    ensures Flatten(pages)[TotalResults(pages[..p]) + j] == rs[p].value.results[j]
  {
    JoinedAt(rs, pages, p);
    FlattenLength(pages);
    FlattenAt(pages, p, j);
  }

  /**
   * Page order of a successful walk: with `pages` the joined pages, result `j` of page `p`
   * (1-based), answered with `page`, sits right after all the results of pages 1..p-1, and the walk returns as many
   * results as the pages hold together.
   */
  lemma WalkInPageOrder<F, T>(getPage: PageFetcher<F, T>, filter: Option<F>, prefix: string, all: seq<T>, pages: seq<Page<T>>, p: int, page: Page<T>, j: int)
    requires Walked(getPage, filter, prefix, Ok(all))
    requires JoinAll(WalkResponses(getPage, filter)) == Ok(pages)
    requires 1 <= p <= |RequestedPages(getPage, filter)|
    requires getPage(PageRequest(p, filter)) == Ok(page) && 0 <= j < |page.results|
    ensures |all| == TotalResults(pages)
    ensures TotalResults(pages[..p - 1]) + j < |all|
    ensures all[TotalResults(pages[..p - 1]) + j] == page.results[j]
  {
    ResponseAt(getPage, filter, p);
    PageInOrder(WalkResponses(getPage, filter), pages, all, p - 1, page, j);
  }

  /** Result `j` of the `k`-th joined response sits at its page-order position among all the results. */
  lemma PageInOrder<T>(rs: seq<Result<Page<T>, string>>, pages: seq<Page<T>>, all: seq<T>, k: int, page: Page<T>, j: int)
    requires JoinAll(rs) == Ok(pages) && all == Flatten(pages)
    requires 0 <= k < |rs| && rs[k] == Ok(page) && 0 <= j < |page.results|
    ensures |all| == TotalResults(pages)
    ensures TotalResults(pages[..k]) + j < |all|
    ensures all[TotalResults(pages[..k]) + j] == page.results[j]
  {
    JoinedInOrder(rs, pages, k, j);
  }

  /** Element `k` of a successful join is the value of the `k`-th result. */
  lemma JoinedAt<T>(rs: seq<Result<T, string>>, values: seq<T>, k: int)
    requires JoinAll(rs) == Ok(values) && 0 <= k < |rs|
    ensures k < |values| && rs[k] == Ok(values[k])
  {
  }

  /** The `p`-th response of a walk answers the request for page `p`. */
  lemma ResponseAt<F, T>(getPage: PageFetcher<F, T>, filter: Option<F>, p: int)
    requires 1 <= p <= |RequestedPages(getPage, filter)|
    ensures |WalkResponses(getPage, filter)| == |RequestedPages(getPage, filter)|
    ensures WalkResponses(getPage, filter)[p - 1] == getPage(PageRequest(p, filter))
  {
  }

  /** A single failing requested page leaves nothing to collect. */
  lemma NotCollectedWhenFailed<F, T>(getPage: PageFetcher<F, T>, filter: Option<F>, p: int)
    requires 1 <= p <= |RequestedPages(getPage, filter)| && getPage(PageRequest(p, filter)).Err?
    ensures Collected(getPage, filter) == None
  {
    var rs := WalkResponses(getPage, filter);
    assert rs[p - 1] == getPage(PageRequest(p, filter));
  }

  /** A walk that ends in an error has collected nothing. */
  lemma FailedWalkCollectsNothing<F, T>(getPage: PageFetcher<F, T>, filter: Option<F>, prefix: string, e: string)
    requires Walked(getPage, filter, prefix, Err(e))
    ensures Collected(getPage, filter) == None
  {
    var rs := WalkResponses(getPage, filter);
    var k :| 0 <= k < |rs| && rs[k].Err? && e == prefix + rs[k].error;
  }
}

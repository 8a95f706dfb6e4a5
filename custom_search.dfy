/** The Custom Search API as the handler sees it, and the pagination loop as a
    function of the API. The HTTP call itself is an oracle: a total function
    from the request to the response it gets. */
module CustomSearch {
  import opened Wrappers

  /** The provider's largest accepted start offset (`MAX_START`). */
  const MaxStart := 91

  /** What the handler sends: credentials, query text and start offset. */
  datatype Query = Query(apiKey: string, cx: string, phrase: string)
  datatype Request = Request(apiKey: string, cx: string, q: string, start: int)

  /** One element of `items`; a missing `link` key reads as `''`. */
  datatype Item = Item(link: Option<string>)

  /** One element of `queries.nextPage`; `startIndex` may be missing. */
  datatype PageRef = PageRef(startIndex: Option<int>)

  /** The decoded JSON body: `items` (a missing key reads as `[]`) and
      `queries.nextPage`, absent when the provider advertises no further page. */
  datatype PageData = PageData(items: seq<Item>, nextPage: Option<seq<PageRef>>)

  datatype Response = Response(status: int, text: string, data: PageData)

  /** The search provider: the response each request would get. */
  type Api = Request -> Response

  datatype SearchError =
    | ApiError(status: int, text: string)  // the exception raised by `search_google`
    | MalformedNextPage                    // `nextPage[0]['startIndex']` raises
    | FuelExhausted                        // the model's bound on the number of fetches

  function Ask(q: Query, start: int): Request
  {
    Request(q.apiKey, q.cx, q.phrase, start)
  }

  /** `search_google`: one request; any status other than 200 raises with the
      status and the response text, otherwise the decoded body is returned. */
  function SearchGoogle(api: Api, q: Query, start: int): (r: Result<PageData, SearchError>)
    ensures r.Err? <==> api(Ask(q, start)).status != 200
    ensures r.Err? ==> r.error == ApiError(api(Ask(q, start)).status, api(Ask(q, start)).text)
    ensures r.Ok? ==> r.value == api(Ask(q, start)).data
  {
    var response := api(Ask(q, start));
    if response.status != 200 then Err(ApiError(response.status, response.text))
    else Ok(response.data)
  }

  /** What the page says about the next one. */
  datatype Continuation = Stop | Continue(start: int) | Malformed

  /** `data['queries']['nextPage'][0]['startIndex']` when `nextPage` is present. */
  function NextStart(data: PageData): Continuation
  {
    match data.nextPage
    case None => Stop
    case Some(refs) =>
      if refs == [] then Malformed
      else match refs[0].startIndex
        case None => Malformed
        case Some(s) => Continue(s)
  }

  /** `item.get('link', '')`. */
  function LinkOf(item: Item): string
  {
    match item.link
    case Some(l) => l
    case None => ""
  }

  /** One page fetched, at the offset it was requested from. */
  datatype Fetch = Fetch(start: int, data: PageData)

  /** The links of a page's items, in order. */
  function ItemLinks(items: seq<Item>): seq<string>
  {
    seq(|items|, i requires 0 <= i < |items| => LinkOf(items[i]))
  }

  /** All links of the fetched pages, in the order received. */
  function Urls(pages: seq<Fetch>): seq<string>
  {
    if pages == [] then [] else Urls(pages[..|pages| - 1]) + ItemLinks(pages[|pages| - 1].data.items)
  }

  function Prepend(pages: seq<Fetch>, r: Result<seq<Fetch>, SearchError>): Result<seq<Fetch>, SearchError>
  {
    match r
    case Ok(rest) => Ok(pages + rest)
    case Err(e) => Err(e)
  }

  /** The `while True` loop from offset `start`, with at most `fuel` fetches: the
      pages it fetches, or the error that aborts it. */
  function Crawl(api: Api, q: Query, start: int, fuel: nat): Result<seq<Fetch>, SearchError>
    decreases fuel
  {
    if start > MaxStart then Ok([])
    else if fuel == 0 then Err(FuelExhausted)
    else match SearchGoogle(api, q, start)
      case Err(e) => Err(e)
      case Ok(data) =>
        if data.items == [] then Ok([Fetch(start, data)])
        else match NextStart(data)
          case Stop => Ok([Fetch(start, data)])
          case Malformed => Err(MalformedNextPage)
          case Continue(next) => Prepend([Fetch(start, data)], Crawl(api, q, next, fuel - 1))
  }

  // ---------------------------------------------------------------------------
  // An independent description of a run, page by page.

  /** The page was fetched with status 200 from the offset it records. */
  ghost predicate Served(api: Api, q: Query, f: Fetch)
  {
    f.start <= MaxStart && api(Ask(q, f.start)).status == 200 && api(Ask(q, f.start)).data == f.data
  }

  /** After this page the loop stops: it is empty, it advertises no next page,
      or the next page it advertises lies beyond the ceiling. */
  predicate Stopped(data: PageData)
  {
    data.items == [] || NextStart(data).Stop? || (NextStart(data).Continue? && NextStart(data).start > MaxStart)
  }

  /** Page `a` advertises page `b` as the next one. */
  predicate Advertises(a: Fetch, b: Fetch)
  {
    NextStart(a.data) == Continue(b.start)
  }

  /** `pages` is a chain of served, non-empty pages, the first requested at
      `start`, each advertising the offset of the next, the last advertising
      `next`. */
  ghost predicate Leads(api: Api, q: Query, start: int, pages: seq<Fetch>, next: int)
  {
    if pages == [] then next == start
    else
      && pages[0].start == start
      && (forall i :: 0 <= i < |pages| ==> Served(api, q, pages[i]) && pages[i].data.items != [])
      && (forall i :: 0 <= i < |pages| - 1 ==> Advertises(pages[i], pages[i + 1]))
      && NextStart(pages[|pages| - 1].data) == Continue(next)
  }

  /** A complete run from `start`: nothing is fetched when `start` is beyond the
      ceiling; otherwise a chain of continuing pages followed by a last page
      after which the loop stops. */
  ghost predicate ValidRun(api: Api, q: Query, start: int, pages: seq<Fetch>)
  {
    if pages == [] then start > MaxStart
    else
      var last := pages[|pages| - 1];
      start <= MaxStart && Leads(api, q, start, pages[..|pages| - 1], last.start) &&
      Served(api, q, last) && Stopped(last.data)
  }

  // ---------------------------------------------------------------------------
  // The loop agrees with the page-by-page description.

  /** A served, non-empty page advertising `next`, followed by a chain from
      `next`, is a chain from the page's own offset. */
  lemma LeadsCons(api: Api, q: Query, f: Fetch, pages: seq<Fetch>, next: int, last: int)
    requires Served(api, q, f) && f.data.items != [] && NextStart(f.data) == Continue(next)
    requires Leads(api, q, next, pages, last)
    ensures Leads(api, q, f.start, [f] + pages, last)
  {
    var chain := [f] + pages;
    assert forall i :: 1 <= i < |chain| ==> chain[i] == pages[i - 1];
    if pages != [] {
      assert Advertises(chain[0], chain[1]);
      forall i | 1 <= i < |chain| - 1 ensures Advertises(chain[i], chain[i + 1]) {
        assert Advertises(pages[i - 1], pages[i]);
      }
    }
  }

  /** The tail of a chain is a chain from the offset its first page advertises. */
  lemma LeadsTail(api: Api, q: Query, start: int, pages: seq<Fetch>, next: int) returns (s: int)
    requires Leads(api, q, start, pages, next) && pages != []
    ensures NextStart(pages[0].data) == Continue(s)
    ensures Leads(api, q, s, pages[1..], next)
  {
    s := if |pages| == 1 then next else pages[1].start;
    if |pages| > 1 {
      assert Advertises(pages[0], pages[1]);
      var tail := pages[1..];
      forall i | 0 <= i < |tail| - 1 ensures Advertises(tail[i], tail[i + 1]) {
        assert Advertises(pages[i + 1], pages[i + 2]);
      }
    }
  }

  /** Following a chain of continuing pages uses one unit of fuel per page and
      contributes exactly those pages. */
  lemma {:induction false} CrawlSplit(api: Api, q: Query, start: int, pages: seq<Fetch>, next: int, fuel: nat)
    requires Leads(api, q, start, pages, next) && |pages| <= fuel
    ensures Crawl(api, q, start, fuel) == Prepend(pages, Crawl(api, q, next, fuel - |pages|))
    decreases |pages|
  {
    if pages == [] {
      match Crawl(api, q, start, fuel)
      case Ok(rest) => assert pages + rest == rest;
      case Err(_) =>
    } else {
      var f := pages[0];
      var s := LeadsTail(api, q, start, pages, next);
      var tail := pages[1..];
      CrawlSplit(api, q, s, tail, next, fuel - 1);
      assert Served(api, q, f);
      assert f == Fetch(start, f.data);
      match Crawl(api, q, next, fuel - |pages|)
      case Ok(rest) => assert [f] + (tail + rest) == pages + rest;
      case Err(_) =>
    }
  }

  /** A served, non-empty page advertising `next`, followed by a valid run from
      `next`, is a valid run from the page's own offset. */
  lemma ValidRunCons(api: Api, q: Query, f: Fetch, rest: seq<Fetch>, next: int)
    requires Served(api, q, f) && f.data.items != [] && NextStart(f.data) == Continue(next)
    requires ValidRun(api, q, next, rest)
    ensures ValidRun(api, q, f.start, [f] + rest)
  {
    var pages := [f] + rest;
    if rest == [] {
      assert pages[..0] == [];
    } else {
      var chain := rest[..|rest| - 1];
      LeadsCons(api, q, f, chain, next, rest[|rest| - 1].start);
      assert pages[..|pages| - 1] == [f] + chain;
    }
  }

  /** Every successful run of the loop is a valid run, within the fuel. */
  lemma {:induction false} CrawlIsValidRun(api: Api, q: Query, start: int, fuel: nat)
    ensures Crawl(api, q, start, fuel).Ok? ==>
      ValidRun(api, q, start, Crawl(api, q, start, fuel).value) && |Crawl(api, q, start, fuel).value| <= fuel
    decreases fuel
  {
    if start <= MaxStart && fuel > 0 && SearchGoogle(api, q, start).Ok? {
      var data := SearchGoogle(api, q, start).value;
      var f := Fetch(start, data);
      assert Served(api, q, f);
      if data.items == [] || NextStart(data).Stop? {
        assert [f][..0] == [];
      } else if NextStart(data).Continue? {
        var next := NextStart(data).start;
        CrawlIsValidRun(api, q, next, fuel - 1);
        if Crawl(api, q, next, fuel - 1).Ok? {
          ValidRunCons(api, q, f, Crawl(api, q, next, fuel - 1).value, next);
        }
      }
    }
  }

  /** Every valid run within the fuel is what the loop computes. */
  lemma ValidRunIsCrawl(api: Api, q: Query, start: int, fuel: nat, pages: seq<Fetch>)
    requires ValidRun(api, q, start, pages) && |pages| <= fuel
    ensures Crawl(api, q, start, fuel) == Ok(pages)
  {
    if pages != [] {
      var chain := pages[..|pages| - 1];
      var last := pages[|pages| - 1];
      CrawlSplit(api, q, start, chain, last.start, fuel);
      assert last == Fetch(last.start, last.data);
      var d := last.data;
      assert SearchGoogle(api, q, last.start) == Ok(d);
      var k := fuel - |chain|;
      if d.items != [] && NextStart(d).Continue? {
        assert Crawl(api, q, NextStart(d).start, k - 1) == Ok([]);
        assert [last] + [] == [last];
      }
      assert Crawl(api, q, last.start, k) == Ok([last]);
      assert chain + [last] == pages;
    }
  }

  /** The pages fetched are exactly those of a valid run: the characterisation of
      a successful loop in both directions. */
  lemma CrawlOkIffValidRun(api: Api, q: Query, start: int, fuel: nat, pages: seq<Fetch>)
    ensures Crawl(api, q, start, fuel) == Ok(pages) <==> ValidRun(api, q, start, pages) && |pages| <= fuel
  {
    CrawlIsValidRun(api, q, start, fuel);
    if ValidRun(api, q, start, pages) && |pages| <= fuel {
      ValidRunIsCrawl(api, q, start, fuel, pages);
    }
  }

  /** Read page by page, a valid run starts at `start`, fetches no offset beyond
      the ceiling, follows each advertised `startIndex` after a non-empty page,
      and stops after its last page for one of the three reasons. */
  lemma RunOffsets(api: Api, q: Query, start: int, pages: seq<Fetch>)
    requires ValidRun(api, q, start, pages)
    ensures pages == [] <==> start > MaxStart
    ensures pages != [] ==> pages[0].start == start && Stopped(pages[|pages| - 1].data)
    ensures forall i :: 0 <= i < |pages| ==>
      pages[i].start <= MaxStart && api(Ask(q, pages[i].start)).status == 200
    ensures forall i :: 0 <= i < |pages| - 1 ==>
      pages[i].data.items != [] && NextStart(pages[i].data) == Continue(pages[i + 1].start)
  {
    if |pages| > 1 {
      var chain := pages[..|pages| - 1];
      assert forall i :: 0 <= i < |chain| ==> chain[i] == pages[i];
      forall i | 0 <= i < |pages| - 1
        ensures pages[i].data.items != [] && NextStart(pages[i].data) == Continue(pages[i + 1].start)
      {
        if i < |chain| - 1 {
          assert Advertises(chain[i], chain[i + 1]);
        }
      }
    }
  }

  /** A status other than 200 on any page the loop reaches aborts the run with
      that status and text. */
  lemma ApiErrorAborts(api: Api, q: Query, start: int, fuel: nat, pages: seq<Fetch>, next: int)
    requires Leads(api, q, start, pages, next) && |pages| < fuel
    requires next <= MaxStart && api(Ask(q, next)).status != 200
    ensures Crawl(api, q, start, fuel) == Err(ApiError(api(Ask(q, next)).status, api(Ask(q, next)).text))
  {
    CrawlSplit(api, q, start, pages, next, fuel);
  }

  /** Conversely, an API error is only reported for a status other than 200 on
      a page the loop reaches. */
  lemma {:induction false} AbortMeansApiError(api: Api, q: Query, start: int, fuel: nat)
    ensures Crawl(api, q, start, fuel).Err? && Crawl(api, q, start, fuel).error.ApiError? ==>
      exists pages, next ::
        && Leads(api, q, start, pages, next) && |pages| < fuel && next <= MaxStart
        && api(Ask(q, next)).status == Crawl(api, q, start, fuel).error.status != 200
        && api(Ask(q, next)).text == Crawl(api, q, start, fuel).error.text
    decreases fuel
  {
    var r := Crawl(api, q, start, fuel);
    if r.Err? && r.error.ApiError? {
      if SearchGoogle(api, q, start).Err? {
        assert Leads(api, q, start, [], start);
      } else {
        var data := SearchGoogle(api, q, start).value;
        var next := NextStart(data).start;
        AbortMeansApiError(api, q, next, fuel - 1);
        var pages, last :| && Leads(api, q, next, pages, last) && |pages| < fuel - 1 && last <= MaxStart
                           && api(Ask(q, last)).status == r.error.status
                           && api(Ask(q, last)).text == r.error.text;
        LeadsCons(api, q, Fetch(start, data), pages, next, last);
      }
    }
  }

  /** Fuel is only a bound: any result other than running out of it stays the
      same with more fuel. */
  lemma {:induction false} CrawlFuelMonotone(api: Api, q: Query, start: int, fuel: nat, more: nat)
    requires fuel <= more
    ensures Crawl(api, q, start, fuel) != Err(FuelExhausted) ==>
      Crawl(api, q, start, more) == Crawl(api, q, start, fuel)
    decreases fuel
  {
    if start <= MaxStart && fuel > 0 && SearchGoogle(api, q, start).Ok? {
      var data := SearchGoogle(api, q, start).value;
      if data.items != [] && NextStart(data).Continue? {
        CrawlFuelMonotone(api, q, NextStart(data).start, fuel - 1, more - 1);
      }
    }
  }

  /** When every advertised `startIndex` lies beyond the offset of its own page,
      the loop ends by itself: from offset 1, 91 fetches always suffice. */
  lemma {:induction false} CrawlTerminates(api: Api, q: Query, start: int, fuel: nat)
    requires forall r :: api(r).status == 200 && NextStart(api(r).data).Continue? ==>
      NextStart(api(r).data).start > r.start
    requires start + fuel > MaxStart
    ensures Crawl(api, q, start, fuel) != Err(FuelExhausted)
    decreases fuel
  {
    if start <= MaxStart && SearchGoogle(api, q, start).Ok? {
      var data := SearchGoogle(api, q, start).value;
      if data.items != [] && NextStart(data).Continue? {
        assert api(Ask(q, start)).status == 200;
        CrawlTerminates(api, q, NextStart(data).start, fuel - 1);
      }
    }
  }
}

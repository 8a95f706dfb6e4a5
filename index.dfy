/** The POST branch of the `index` handler: fetch the result pages, rank the
    links and find the website, then derive the file name and write the record. */
module Index {
  import opened Wrappers
  import opened Text
  import opened Calendar
  import opened Ranking
  import opened CustomSearch
  import opened Record

  /** What one search produces: the ranked links, the website's position, the
      name of the file written and its text. */
  datatype Outcome = Outcome(links: seq<RankedLink>, websitePosition: Option<nat>, filename: string, content: string)

  /** The POST branch as a function of the API, the form fields, the date and
      the fuel bounding the number of fetches. */
  function Search(api: Api, q: Query, website: string, today: Date, fuel: nat): Result<Outcome, SearchError>
    requires ValidDate(today)
  {
    match Crawl(api, q, 1, fuel)
    case Err(e) => Err(e)
    case Ok(pages) =>
      var urls := Urls(pages);
      var links := Ranked(urls);
      var position := FirstMatch(website, urls);
      Ok(Outcome(links, position, FileName(q.phrase, today), Content(q.phrase, website, position, links)))
  }

  lemma SearchFails(api: Api, q: Query, website: string, today: Date, fuel: nat, e: SearchError)
    requires ValidDate(today) && Crawl(api, q, 1, fuel) == Err(e)
    ensures Search(api, q, website, today, fuel) == Err(e)
  {
  }

  lemma SearchSucceeds(api: Api, q: Query, website: string, today: Date, fuel: nat, pages: seq<Fetch>)
    requires ValidDate(today) && Crawl(api, q, 1, fuel) == Ok(pages)
    ensures Search(api, q, website, today, fuel) ==
      Ok(Outcome(Ranked(Urls(pages)), FirstMatch(website, Urls(pages)), FileName(q.phrase, today),
                 Content(q.phrase, website, FirstMatch(website, Urls(pages)), Ranked(Urls(pages)))))
  {
  }

  lemma UrlsSnoc(pages: seq<Fetch>, f: Fetch)
    ensures Urls(pages + [f]) == Urls(pages) + ItemLinks(f.data.items)
  {
    assert (pages + [f])[..|pages|] == pages;
  }

  lemma PrependNil(r: Result<seq<Fetch>, SearchError>)
    ensures Prepend([], r) == r
  {
    if r.Ok? {
      assert [] + r.value == r.value;
    }
  }

  lemma PrependStop(pages: seq<Fetch>, last: seq<Fetch>)
    ensures Prepend(pages, Ok(last)) == Ok(pages + last)
  {
  }

  lemma PrependStep(pages: seq<Fetch>, page: Fetch, r: Result<seq<Fetch>, SearchError>)
    ensures Prepend(pages, Prepend([page], r)) == Prepend(pages + [page], r)
  {
    if r.Ok? {
      assert pages + ([page] + r.value) == (pages + [page]) + r.value;
    }
  }

  /** The `for item in items` loop: each link gets the next rank (`position`),
      and the first one containing the website sets `website_position`. */
  method RankItems(website: string, items: seq<Item>, ghost seen: seq<string>,
                   links: seq<RankedLink>, position: int, websitePosition: Option<nat>)
    returns (links': seq<RankedLink>, position': int, websitePosition': Option<nat>)
    requires links == Ranked(seen) && position == |links| + 1
    requires websitePosition == FirstMatch(website, seen)
    ensures links' == Ranked(seen + ItemLinks(items)) && position' == |links'| + 1
    ensures websitePosition' == FirstMatch(website, seen + ItemLinks(items))
  {
    ghost var urls := ItemLinks(items);
    links', position', websitePosition' := links, position, websitePosition;
    assert seen + urls[..0] == seen;
    for i := 0 to |items|
      invariant links' == Ranked(seen + urls[..i]) && position' == |links'| + 1
      invariant websitePosition' == FirstMatch(website, seen + urls[..i])
    {
      var link := LinkOf(items[i]);
      ghost var before := seen + urls[..i];
      assert before + [link] == seen + urls[..i + 1];
      FirstMatchSnoc(website, before, link);
      RankedSnoc(before, link);
      links' := links' + [RankedLink(position', link)];
      if website != "" && !Truthy(websitePosition') && Matches(website, link) {
        websitePosition' := Some(position');
      }
      position' := position' + 1;
    }
    assert urls[..|items|] == urls;
  }

  /** The handler: the `while True` pagination loop with its inner loop over
      the items, then the file name and the record. At most `fuel` pages are
      fetched. */
  method HandleSearch(api: Api, apiKey: string, cx: string, phrase: string, website: string, today: Date, fuel: nat)
    returns (r: Result<Outcome, SearchError>)
    requires ValidDate(today)
    ensures r == Search(api, Query(apiKey, cx, phrase), website, today, fuel)
  {
    var q := Query(apiKey, cx, phrase);
    var websitePosition: Option<nat> := None;
    var position := 1;
    var start := 1;
    var links: seq<RankedLink> := [];
    var fuelLeft := fuel;
    ghost var pages: seq<Fetch> := [];
    PrependNil(Crawl(api, q, start, fuelLeft));
    while true
      invariant Crawl(api, q, 1, fuel) == Prepend(pages, Crawl(api, q, start, fuelLeft))
      invariant links == Ranked(Urls(pages)) && position == |links| + 1
      invariant websitePosition == FirstMatch(website, Urls(pages))
      decreases fuelLeft
    {
      if start > MaxStart {
        PrependStop(pages, []);
        assert pages + [] == pages;
        assert Crawl(api, q, 1, fuel) == Ok(pages);
        assert links == Ranked(Urls(pages)) && websitePosition == FirstMatch(website, Urls(pages));
        break;
      }
      if fuelLeft == 0 {
        SearchFails(api, q, website, today, fuel, FuelExhausted);
        r := Err(FuelExhausted);
        assert r == Search(api, q, website, today, fuel);
        return;
      }
      var response := SearchGoogle(api, q, start);
      if response.Err? {
        SearchFails(api, q, website, today, fuel, response.error);
        r := Err(response.error);
        assert r == Search(api, q, website, today, fuel);
        return;
      }
      var data := response.value;
      var items := data.items;
      ghost var page := Fetch(start, data);
      if items == [] {
        UrlsSnoc(pages, page);
        assert ItemLinks(items) == [];
        assert Urls(pages + [page]) == Urls(pages) + [] == Urls(pages);
        PrependStop(pages, [page]);
        pages := pages + [page];
        assert Crawl(api, q, 1, fuel) == Ok(pages);
        assert links == Ranked(Urls(pages)) && websitePosition == FirstMatch(website, Urls(pages));
        break;
      }
      links, position, websitePosition := RankItems(website, items, Urls(pages), links, position, websitePosition);
      UrlsSnoc(pages, page);
      var next := NextStart(data);
      if next.Stop? {
        PrependStop(pages, [page]);
        pages := pages + [page];
        assert Crawl(api, q, 1, fuel) == Ok(pages);
        assert links == Ranked(Urls(pages)) && websitePosition == FirstMatch(website, Urls(pages));
        break;
      } else if next.Malformed? {
        SearchFails(api, q, website, today, fuel, MalformedNextPage);
        r := Err(MalformedNextPage);
        assert r == Search(api, q, website, today, fuel);
        return;
      }
      assert Crawl(api, q, start, fuelLeft) == Prepend([page], Crawl(api, q, next.start, fuelLeft - 1));
      PrependStep(pages, page, Crawl(api, q, next.start, fuelLeft - 1));
      pages := pages + [page];
      start := next.start;
      fuelLeft := fuelLeft - 1;
    }
    assert Crawl(api, q, 1, fuel) == Ok(pages);
    assert links == Ranked(Urls(pages)) && websitePosition == FirstMatch(website, Urls(pages));
    var safePhrase := Sanitize(phrase);
    var filename := safePhrase + "_" + IsoFormat(today) + ".md";
    var content := WriteRecord(phrase, website, websitePosition, links);
    assert filename == FileName(phrase, today);
    r := Ok(Outcome(links, websitePosition, filename, content));
    SearchSucceeds(api, q, website, today, fuel, pages);
    assert r == Search(api, q, website, today, fuel);
  }

  // ---------------------------------------------------------------------------
  // What one search yields.

  /** A search succeeds exactly when the pages fetched form a valid run within
      the fuel. */
  lemma SearchOkIffValidRun(api: Api, q: Query, website: string, today: Date, fuel: nat)
    requires ValidDate(today)
    ensures Search(api, q, website, today, fuel).Ok? <==>
      exists pages :: ValidRun(api, q, 1, pages) && |pages| <= fuel
  {
    if Crawl(api, q, 1, fuel).Ok? {
      CrawlOkIffValidRun(api, q, 1, fuel, Crawl(api, q, 1, fuel).value);
    }
    if exists pages :: ValidRun(api, q, 1, pages) && |pages| <= fuel {
      var pages :| ValidRun(api, q, 1, pages) && |pages| <= fuel;
      CrawlOkIffValidRun(api, q, 1, fuel, pages);
    }
  }

  /** A valid run yields the links of all its pages in the order received,
      ranked 1, 2, ..., n, and the file name built from the phrase and the date. */
  lemma SearchLinks(api: Api, q: Query, website: string, today: Date, fuel: nat, pages: seq<Fetch>)
    requires ValidDate(today)
    requires ValidRun(api, q, 1, pages) && |pages| <= fuel
    ensures Search(api, q, website, today, fuel).Ok?
    ensures var o := Search(api, q, website, today, fuel).value;
      && |o.links| == |Urls(pages)|
      && (forall i :: 0 <= i < |o.links| ==> o.links[i].rank == i + 1 && o.links[i].url == Urls(pages)[i])
      && o.filename == FileName(q.phrase, today)
  {
    CrawlOkIffValidRun(api, q, 1, fuel, pages);
  }

  /** The position a valid run records is the smallest rank whose link contains
      the website; there is none exactly when the website is empty or no link
      contains it. */
  lemma SearchPosition(api: Api, q: Query, website: string, today: Date, fuel: nat, pages: seq<Fetch>)
    requires ValidDate(today)
    requires ValidRun(api, q, 1, pages) && |pages| <= fuel
    ensures Search(api, q, website, today, fuel).Ok?
    ensures var o := Search(api, q, website, today, fuel).value;
      && (o.websitePosition.Some? ==>
            && website != ""
            && 1 <= o.websitePosition.value <= |o.links|
            && Matches(website, o.links[o.websitePosition.value - 1].url)
            && forall j :: 0 <= j < o.websitePosition.value - 1 ==> !Matches(website, o.links[j].url))
      && (o.websitePosition.None? <==>
            website == "" || forall j :: 0 <= j < |o.links| ==> !Matches(website, o.links[j].url))
  {
    CrawlOkIffValidRun(api, q, 1, fuel, pages);
    FirstMatchIsFirst(website, Urls(pages));
  }

  /** The record of a valid run: the heading, then the line reporting the
      position found (and no other position) when a website was asked for, then
      the listing. */
  lemma SearchRecord(api: Api, q: Query, website: string, today: Date, fuel: nat, pages: seq<Fetch>)
    requires ValidDate(today)
    requires ValidRun(api, q, 1, pages) && |pages| <= fuel
    ensures Search(api, q, website, today, fuel).Ok?
    ensures var o := Search(api, q, website, today, fuel).value;
      && (website == "" ==> o.content == Heading(q.phrase) + Listing(o.links))
      && (website != "" ==> forall p: nat ::
            o.content == Heading(q.phrase) + FoundLine(website, p) + Listing(o.links) <==>
            o.websitePosition == Some(p))
  {
    CrawlOkIffValidRun(api, q, 1, fuel, pages);
    var o := Search(api, q, website, today, fuel).value;
    forall p: nat ensures website != "" ==>
      (o.content == Heading(q.phrase) + FoundLine(website, p) + Listing(o.links) <==> o.websitePosition == Some(p))
    {
      ContentReportsPosition(q.phrase, website, o.websitePosition, o.links, p);
    }
    ContentReportsPosition(q.phrase, website, o.websitePosition, o.links, 0);
  }

  /** A status other than 200 on any page the loop reaches aborts the search:
      no links, no file name, no record. */
  lemma ApiErrorMeansNoRecord(api: Api, q: Query, website: string, today: Date, fuel: nat,
                              pages: seq<Fetch>, next: int)
    requires ValidDate(today)
    requires Leads(api, q, 1, pages, next) && |pages| < fuel
    requires next <= MaxStart && api(Ask(q, next)).status != 200
    ensures Search(api, q, website, today, fuel) ==
      Err(ApiError(api(Ask(q, next)).status, api(Ask(q, next)).text))
  {
    ApiErrorAborts(api, q, 1, fuel, pages, next);
  }

  // ---------------------------------------------------------------------------
  // Worked examples.

  /** Two pages: three links, then an empty page. */
  function TwoPageApi(r: Request): Response
  {
    if r.start == 1 then
      Response(200, "", PageData([Item(Some("a.com")), Item(Some("golang.org/x")), Item(Some("b.com"))],
                                 Some([PageRef(Some(4))])))
    else Response(200, "", PageData([], None))
  }

  /** Searching "rust vs go" for "golang.org": ranks 1 to 3, the website at
      position 2, and a record saying "found at position 2" above the three
      links. */
  lemma RustVsGoExample()
    ensures var r := Search(TwoPageApi, Query("key", "cx", "rust vs go"), "golang.org", Date(2024, 5, 1), 10);
      && r.Ok?
      && r.value.links == [RankedLink(1, "a.com"), RankedLink(2, "golang.org/x"), RankedLink(3, "b.com")]
      && r.value.websitePosition == Some(2)
      && r.value.content == Heading("rust vs go") + FoundLine("golang.org", 2) + Listing(r.value.links)
  {
    var q := Query("key", "cx", "rust vs go");
    var pages := TwoPageCrawl(q);
    GolangMatch();
    SearchSucceeds(TwoPageApi, q, "golang.org", Date(2024, 5, 1), 10, pages);
  }

  /** The two pages are fetched, from offsets 1 and 4, and give three links. */
  lemma TwoPageCrawl(q: Query) returns (pages: seq<Fetch>)
    ensures Crawl(TwoPageApi, q, 1, 10) == Ok(pages)
    ensures Urls(pages) == ["a.com", "golang.org/x", "b.com"]
    ensures Ranked(Urls(pages)) == [RankedLink(1, "a.com"), RankedLink(2, "golang.org/x"), RankedLink(3, "b.com")]
  {
    var first := TwoPageApi(Ask(q, 1)).data;
    var second := TwoPageApi(Ask(q, 4)).data;
    pages := [Fetch(1, first), Fetch(4, second)];
    assert Crawl(TwoPageApi, q, 4, 9) == Ok([Fetch(4, second)]);
    assert SearchGoogle(TwoPageApi, q, 1) == Ok(first);
    assert NextStart(first) == Continue(4);
    assert [Fetch(1, first)] + [Fetch(4, second)] == pages;
    assert pages[..1] == [Fetch(1, first)];
    assert ItemLinks(first.items) == ["a.com", "golang.org/x", "b.com"];
    assert Urls([Fetch(1, first)]) == [] + ItemLinks(first.items);
    assert Urls(pages) == Urls([Fetch(1, first)]) + [];
  }

  /** "golang.org" first occurs in the second of the three links. */
  lemma GolangMatch()
    ensures FirstMatch("golang.org", ["a.com", "golang.org/x", "b.com"]) == Some(2)
  {
    var w, a, g := "golang.org", "a.com", "golang.org/x";
    assert Lower(w) == w;
    assert Lower(g) == g;
    assert |Lower(a)| < |Lower(w)|;
    assert !Matches(w, a);
    assert g[..|w|] == w;
    assert Matches(w, g);
    assert FirstMatch(w, [a]) == None by {
      assert [a][..0] == [];
    }
    assert FirstMatch(w, [a, g]) == Some(2) by {
      assert [a, g][..1] == [a];
    }
    assert [a, g, "b.com"][..2] == [a, g];
  }

  /** A forbidden first request aborts the search with its status. */
  lemma ForbiddenExample(website: string)
    ensures Search(_ => Response(403, "denied", PageData([], None)), Query("key", "cx", "rust"), website,
                   Date(2024, 5, 1), 10) == Err(ApiError(403, "denied"))
  {
  }
}

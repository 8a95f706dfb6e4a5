# Search-and-record model of the Google Custom Search handler

The Flask handler `index` in `browser-tools-mcp/app.py` does one thing on a POST.
It takes a search phrase and an optional website (a domain or part of one).
It then pages through the results of the Google Custom Search API, from start offset 1 up to the provider's ceiling of 91.
Every link gets a global rank, 1, 2, ..., in the order received.
The handler notes the rank of the first link that contains the website, ignoring case.
Finally it writes a markdown record to a file whose name is the sanitised phrase plus the current date.

This project models that POST branch and the error contract of `search_google`.
It proves the properties the code promises:
- contiguous ranks;
- the first-match position, which is never changed once set;
- the three ways the loop stops, and the 91 ceiling;
- an error on any page aborts the whole search;
- the sanitiser, checked character by character;
- the exact file name;
- the exact layout of the record.

Modules, one per file:

- `Wrappers` (`wrappers.dfy`): `Option` and `Result`.
- `Text` (`text.dfy`): ASCII `lower()`, substring containment (`in`), the `re.sub` sanitiser, and decimal rendering (`str(n)`, zero padding).
- `Calendar` (`calendar.dfy`): the date and `date.isoformat()`.
- `Ranking` (`ranking.dfy`): ranked links and the first-match position.
- `CustomSearch` (`custom_search.dfy`):
  - The search provider is an oracle `Api = Request -> Response`.
  - `SearchGoogle` is `search_google`.
  - `Crawl` is the pagination loop as a function.
  - `ValidRun` is an independent, page-by-page description of a run. The two are proved equal.
- `Record` (`record.dfy`): the file name, the record text, and the `with open(...)` block as the methods `WriteRecord` and `WriteListing`.
- `Index` (`index.dfy`):
  - `HandleSearch` is the POST branch as an imperative method, with the `while True` loop and its `break`s.
  - Its inner `for item in items` loop is `RankItems`.
  - It is proved equal to the function `Search`. The end-to-end lemmas are stated about `Search`.

The HTTP call is a parameter. `api` gives the response to each request: status, text and decoded JSON body.
The credentials (`API_KEY`, `CX`), the phrase, the website and today's date are also inputs.
`HandleSearch` returns the outcome instead of writing a file. That outcome is either the error that aborted the run, or the ranked links, the website position, the file name and the file's text.

The source loop has no bound of its own: the next offset is whatever `startIndex` the provider advertises.
So the model takes a `fuel` argument, which is the largest number of pages it will fetch.
If that is not enough, the result is `FuelExhausted`.
`CrawlTerminates` shows that 91 fetches are always enough when every advertised `startIndex` is larger than the offset of the page that advertises it.
The behaviour of an API without that property is described in `## Left out`.

The pagination ceiling applies to the `startIndex` the provider advertises, not to a start offset the handler adds up itself. A description of the program as counting a "cumulative" offset would not match `app.py:86`, and the model follows the code.

## Model

| member | source | states |
|---|---|---|
| CustomSearch.SearchGoogle | browser-tools-mcp/app.py:44-55 | The request fails exactly when the status is not 200. The error carries that status and the response text. Otherwise the decoded body is returned. |
| CustomSearch.CrawlOkIffValidRun | browser-tools-mcp/app.py:68-88 | The loop returns a list of pages exactly when those pages form a valid run within the fuel. A valid run starts at offset 1, and each page is served with status 200 from the offset the previous page advertised. Every page but the last is non-empty and advertises a next page. The last page stops the loop. |
| CustomSearch.CrawlIsValidRun | browser-tools-mcp/app.py:68-88 | Every successful run of the loop is a valid run, and it fetches no more pages than the fuel allows. |
| CustomSearch.ValidRunIsCrawl | browser-tools-mcp/app.py:68-88 | Every valid run within the fuel is exactly what the loop computes. |
| CustomSearch.RunOffsets | browser-tools-mcp/app.py:71-88 | No page is fetched from an offset beyond 91. Nothing is fetched when the first offset is beyond 91. Every page but the last is non-empty, and the next offset is the `startIndex` it advertises. The last page is empty, advertises no next page, or advertises one beyond 91. |
| CustomSearch.CrawlSplit | browser-tools-mcp/app.py:72-88 | Following a chain of non-empty, continuing pages uses one unit of fuel per page, and the loop then goes on from the offset the last page advertises. |
| CustomSearch.ApiErrorAborts | browser-tools-mcp/app.py:72-88 | A status other than 200 on any page the loop reaches aborts the run with that status and text. |
| CustomSearch.AbortMeansApiError | browser-tools-mcp/app.py:72-88 | An API error is reported only for a page the loop actually reaches whose status is not 200. |
| CustomSearch.CrawlFuelMonotone | browser-tools-mcp/app.py:72 | Apart from running out of fuel, the result does not depend on how much fuel is given. |
| CustomSearch.CrawlTerminates | browser-tools-mcp/app.py:72-88 | Fuel of 91 or more always suffices when every advertised `startIndex` exceeds the offset of its own page. |
| CustomSearch.LeadsTail | browser-tools-mcp/app.py:85-86 | After the first page of a chain, the rest of the chain starts from the offset that first page advertises. |
| Ranking.FirstMatchIsFirst | browser-tools-mcp/app.py:82-83 | The recorded position is the smallest rank whose link contains the website, ignoring case. There is no position exactly when the website is empty or no link contains it. |
| Ranking.FirstMatchAppend | browser-tools-mcp/app.py:82-83 | Once a position is recorded, later links never change it. Before that, a match among later links is recorded at its global rank. |
| Ranking.FirstMatchSnoc | browser-tools-mcp/app.py:82-84 | One loop step sets the position to the current rank only when the website is non-empty, no position is set yet, and the link contains the website. |
| Ranking.RankedSnoc | browser-tools-mcp/app.py:79-84 | Appending one link gives it the rank after the last one. |
| Index.RankItems | browser-tools-mcp/app.py:79-84 | Over one page's items, the links are extended with consecutive ranks and `position` is one past the last rank. The website position becomes the first match over all links so far. A missing `link` reads as the empty string. |
| Index.HandleSearch | browser-tools-mcp/app.py:64-102 | The POST branch computes exactly `Search`: the error that aborts the loop, or the ranked links, the first-match position, the file name and the record text. |
| Index.SearchOkIffValidRun | browser-tools-mcp/app.py:64-102 | A search yields an outcome exactly when some valid run from offset 1 fits within the fuel. |
| Index.SearchLinks | browser-tools-mcp/app.py:68-92 | The links of a valid run are all its pages' links in the order received, ranked 1, 2, ..., n with no gap and no duplicate. The file name is built from the phrase and the date. |
| Index.SearchPosition | browser-tools-mcp/app.py:82-83 | The position is the smallest rank whose link contains the website, ignoring case. There is none exactly when the website is empty or no link contains it. |
| Index.SearchRecord | browser-tools-mcp/app.py:94-101 | Without a website, the record goes straight from the heading to the listing. With one, it says "found at position p" exactly when the position recorded is p. |
| Index.ApiErrorMeansNoRecord | browser-tools-mcp/app.py:64-93 | A non-200 response on any page the loop reaches aborts the search with that error, so there are no links, no file name and no record. |
| Index.RustVsGoExample | browser-tools-mcp/app.py:64-101 | Worked example: two pages holding three links and then none. The website is found at position 2, and the record reports it above the three ranked links. |
| Index.TwoPageCrawl | browser-tools-mcp/app.py:68-88 | Worked example: the loop fetches offsets 1 and 4, then stops at the empty page. |
| Index.GolangMatch | browser-tools-mcp/app.py:82-83 | Worked example: "golang.org" is first found in the second of three links. |
| Index.ForbiddenExample | browser-tools-mcp/app.py:53-54 | Worked example: a 403 on the first page aborts the search with that status and text. |
| Text.Contains | browser-tools-mcp/app.py:82 | `needle in hay` holds exactly when the needle occurs in the hay at some index. |
| Text.Sanitize | browser-tools-mcp/app.py:90 | The safe phrase has the same length as the phrase. Each character in `[a-zA-Z0-9_-]` is kept and every other becomes `_`, so every output character is safe. |
| Text.SanitizeIdempotent | browser-tools-mcp/app.py:90 | Sanitising twice is the same as sanitising once. |
| Text.SanitizeFixpoint | browser-tools-mcp/app.py:90 | A phrase is unchanged by sanitising exactly when all its characters are safe. |
| Text.NatToString | browser-tools-mcp/app.py:97-101 | `str(n)` is a non-empty string of decimal digits. It denotes `n`, and has no leading zero unless it is "0". |
| Text.NatToStringInjective | browser-tools-mcp/app.py:97 | Different numbers are written differently. |
| Text.Padded | browser-tools-mcp/app.py:91 | A zero-padded field has exactly the width asked for and denotes the number. |
| Calendar.IsoFormat | browser-tools-mcp/app.py:91 | The ISO date is ten characters long. |
| Calendar.IsoFormatFields | browser-tools-mcp/app.py:91 | The ISO date has hyphens at positions 4 and 7. The year, month and day can be read back from the digit fields between them. Every character is safe in a file name. |
| Calendar.IsoFormatInjective | browser-tools-mcp/app.py:91 | Different dates give different ISO strings. |
| Record.FileNameParts | browser-tools-mcp/app.py:90-92 | The file name is exactly the safe phrase, `_`, the ISO date and `.md`, so it is 14 characters longer than the phrase. |
| Record.FileNameIsPlain | browser-tools-mcp/app.py:90-92 | Whatever the phrase, the file name has only safe characters before its `.md` suffix: no path separator and no other dot. |
| Record.FileNameCollision | browser-tools-mcp/app.py:90-92 | Two searches write the same file exactly when their phrases sanitise alike and they run on the same day. |
| Record.ListingConcat | browser-tools-mcp/app.py:100-101 | The listing of two runs of links is the listing of the first followed by that of the second. |
| Record.ListingAt | browser-tools-mcp/app.py:100-101 | The line `"<pos>. <link>"` of the k-th link comes after the lines of all earlier links and before those of all later ones. |
| Record.ContentReportsPosition | browser-tools-mcp/app.py:94-101 | With a website given, the record says "found at position p" exactly when the position is p, and "not found" when none was recorded. Without a website, the heading is followed directly by the listing. |
| Record.FoundLineInjective | browser-tools-mcp/app.py:97 | The found line names a single position. |
| Record.FoundLineIsNotNotFoundLine | browser-tools-mcp/app.py:97-99 | The found line and the not-found line never coincide. |
| Record.WriteListing | browser-tools-mcp/app.py:100-101 | Appending one line per link, in order, adds exactly the listing of the links to the text written so far. |
| Record.WriteRecord | browser-tools-mcp/app.py:93-101 | The successive writes produce the heading, the found or not-found line when a website was given, and the listing. |

## Left out

- Flask routing, `request.form`, the HTML template and its rendering (`app.py:15-42,57,103`) are web I/O and the view layer. The template highlights matches with a case-sensitive `in` (`app.py:30`), unlike the case-insensitive test the handler records (`app.py:82`). Only the handler's test is modelled.
- The `requests.get` call and JSON decoding (`app.py:45-52,55`) are replaced by the `api` oracle, which returns an already decoded body. JSON values of the wrong type and bodies that fail to decode are not modelled. A missing `items` key reads as no items, a missing `link` key as `""`, and a missing `queries` or `nextPage` key as no next page.
- Credential loading (`app.py:8-13`) is environment I/O. The key and engine id are parameters of `HandleSearch`.
- `datetime.date.today()` (`app.py:91`) reads the clock. The date is a parameter. `isoformat()` is modelled for years 1 to 9999.
- `open` and `f.write` (`app.py:93-101`) are file I/O. The file's text is returned as a string, and the file itself is not modelled. Overwriting an existing file of the same name shows up only as `FileNameCollision`.
- `str.lower()` (`app.py:82`) is modelled for ASCII letters only. Other Unicode case mappings are not modelled.
- An empty `nextPage` list or a missing `startIndex` raises in Python. The model reports both as `MalformedNextPage`, whatever the Python exception would have been.
- Index.HandleSearch: does not model a loop that never ends, because the model fetches at most `fuel` pages. If the provider advertises a non-increasing `startIndex` forever, the source loops without end, and the model returns `FuelExhausted`, which has no counterpart in the source.
- CustomSearch.CrawlTerminates: shows termination only when offsets increase, because the source has no bound of its own without that condition.

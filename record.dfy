/** The file the handler writes: its name, derived from the phrase and the
    date, and its markdown text, written piece by piece. */
module Record {
  import opened Wrappers
  import opened Text
  import opened Calendar
  import opened Ranking

  /** `f"{safe_phrase}_{today}.md"` with `safe_phrase` the sanitised phrase. */
  function FileName(phrase: string, today: Date): string
    requires ValidDate(today)
  {
    Sanitize(phrase) + "_" + IsoFormat(today) + ".md"
  }

  /** The file name splits back into the sanitised phrase, an underscore, the
      ISO date and the `.md` suffix. */
  lemma FileNameParts(phrase: string, today: Date)
    requires ValidDate(today)
    ensures var name := FileName(phrase, today);
      && |name| == |phrase| + 14
      && name[..|phrase|] == Sanitize(phrase)
      && name[|phrase|] == '_'
      && name[|phrase| + 1..|phrase| + 11] == IsoFormat(today)
      && name[|phrase| + 11..] == ".md"
  {
    var name := FileName(phrase, today);
    assert name == Sanitize(phrase) + "_" + IsoFormat(today) + ".md";
  }

  /** Whatever the phrase, the name is a plain file name: safe characters up to
      the `.md` suffix, so no path separator and no other dot. */
  lemma FileNameIsPlain(phrase: string, today: Date)
    requires ValidDate(today)
    ensures var name := FileName(phrase, today);
      |name| >= 4 && name[|name| - 3..] == ".md" &&
      forall i :: 0 <= i < |name| - 3 ==> IsSafeChar(name[i])
  {
    FileNameParts(phrase, today);
    IsoFormatFields(today);
    var name := FileName(phrase, today);
    forall i | 0 <= i < |name| - 3 ensures IsSafeChar(name[i]) {
      if i < |phrase| {
        assert name[i] == name[..|phrase|][i];
      } else if i > |phrase| {
        assert name[i] == name[|phrase| + 1..|phrase| + 11][i - |phrase| - 1];
      }
    }
  }

  /** Two runs write to the same file exactly when their phrases sanitise alike
      and they run on the same day. */
  lemma FileNameCollision(phrase1: string, today1: Date, phrase2: string, today2: Date)
    requires ValidDate(today1) && ValidDate(today2)
    ensures FileName(phrase1, today1) == FileName(phrase2, today2) <==>
      Sanitize(phrase1) == Sanitize(phrase2) && today1 == today2
  {
    FileNameParts(phrase1, today1);
    FileNameParts(phrase2, today2);
    if FileName(phrase1, today1) == FileName(phrase2, today2) {
      IsoFormatInjective(today1, today2);
    }
  }

  /** `# Results for '<phrase>'` and a blank line. */
  function Heading(phrase: string): string
  {
    "# Results for '" + phrase + "'\n\n"
  }

  function FoundLine(website: string, position: nat): string
  {
    "Website '" + website + "' found at position " + NatToString(position) + ".\n\n"
  }

  function NotFoundLine(website: string): string
  {
    "Website '" + website + "' not found in the available search results.\n\n"
  }

  /** The summary line, written only when a website was given. */
  function WebsiteLine(website: string, position: Option<nat>): string
  {
    if website == "" then ""
    else if Truthy(position) then FoundLine(website, position.value)
    else NotFoundLine(website)
  }

  /** `f"{pos}. {link}\n"`. */
  function Line(link: RankedLink): string
  {
    NatToString(link.rank) + ". " + link.url + "\n"
  }

  /** One line per link, in order. */
  function Listing(links: seq<RankedLink>): string
  {
    if links == [] then "" else Line(links[0]) + Listing(links[1..])
  }

  /** The whole file. */
  function Content(phrase: string, website: string, position: Option<nat>, links: seq<RankedLink>): string
  {
    Heading(phrase) + WebsiteLine(website, position) + Listing(links)
  }

  /** The listing of consecutive runs of links is the concatenation of their
      listings. */
  lemma {:induction false} ListingConcat(a: seq<RankedLink>, b: seq<RankedLink>)
    ensures Listing(a + b) == Listing(a) + Listing(b)
    decreases |a|
  {
    if a != [] {
      assert (a + b)[1..] == a[1..] + b;
      ListingConcat(a[1..], b);
    } else {
      assert a + b == b;
    }
  }

  /** The line of the link at index `k` sits between the listing of the links
      before it and that of the links after it. */
  lemma ListingAt(links: seq<RankedLink>, k: nat)
    requires k < |links|
    ensures Listing(links) == Listing(links[..k]) + Line(links[k]) + Listing(links[k + 1..])
  {
    var before, rest := links[..k], links[k..];
    assert links == before + rest;
    ListingConcat(before, rest);
    assert rest[0] == links[k] && rest[1..] == links[k + 1..];
  }

  /** Appending a link appends its line. */
  lemma ListingSnoc(links: seq<RankedLink>, link: RankedLink)
    ensures Listing(links + [link]) == Listing(links) + Line(link)
  {
    ListingConcat(links, [link]);
    assert [link][1..] == [];
  }

  /** Equal strings with a common prefix and a common suffix agree in between. */
  lemma CancelAround(a: string, x: string, y: string, b: string)
    requires a + x + b == a + y + b
    ensures x == y
  {
    assert |x| == |y|;
    assert x == (a + x + b)[|a|..|a| + |x|];
    assert y == (a + y + b)[|a|..|a| + |y|];
  }

  /** The found-line names its position unambiguously. */
  lemma FoundLineInjective(website: string, p: nat, p': nat)
    requires FoundLine(website, p) == FoundLine(website, p')
    ensures p == p'
  {
    var a := "Website '" + website + "' found at position ";
    assert FoundLine(website, p) == a + NatToString(p) + ".\n\n";
    assert FoundLine(website, p') == a + NatToString(p') + ".\n\n";
    CancelAround(a, NatToString(p), NatToString(p'), ".\n\n");
    NatToStringInjective(p, p');
  }

  /** The found-line and the not-found-line differ. */
  lemma FoundLineIsNotNotFoundLine(website: string, p: nat)
    ensures FoundLine(website, p) != NotFoundLine(website)
  {
    var a := "Website '" + website;
    var found := FoundLine(website, p);
    var missing := NotFoundLine(website);
    var tail := "' not found in the available search results.\n\n";
    assert found == a + ("' found at position " + NatToString(p) + ".\n\n");
    assert missing == a + tail;
    assert found[|a| + 2] == 'f';
    assert tail[2] == 'n';
    assert missing[|a| + 2] == 'n';
  }

  /** With a website given, the file says "found at position p" exactly when
      the recorded position is `p`, and "not found" otherwise; without one it
      goes straight from the heading to the listing. */
  lemma ContentReportsPosition(phrase: string, website: string, position: Option<nat>, links: seq<RankedLink>, p: nat)
    ensures website == "" ==> Content(phrase, website, position, links) == Heading(phrase) + Listing(links)
    ensures website != "" ==>
      (Content(phrase, website, position, links) == Heading(phrase) + FoundLine(website, p) + Listing(links)
       <==> Truthy(position) && position.value == p)
    ensures website != "" && !Truthy(position) ==>
      Content(phrase, website, position, links) == Heading(phrase) + NotFoundLine(website) + Listing(links)
  {
    var h, l := Heading(phrase), Listing(links);
    var found := FoundLine(website, p);
    if website != "" && Content(phrase, website, position, links) == h + found + l {
      var line := WebsiteLine(website, position);
      CancelAround(h, line, found, l);
      if Truthy(position) {
        FoundLineInjective(website, position.value, p);
      } else {
        FoundLineIsNotNotFoundLine(website, p);
      }
    }
  }

  /** The `for pos, link in links` loop of the `with open(...)` block: one
      line per link, appended in turn to what was written before. */
  method WriteListing(written: string, links: seq<RankedLink>) returns (content: string)
    ensures content == written + Listing(links)
  {
    content := written;
    for i := 0 to |links|
      invariant content == written + Listing(links[..i])
    {
      ListingSnoc(links[..i], links[i]);
      assert links[..i + 1] == links[..i] + [links[i]];
      content := content + Line(links[i]);
    }
    assert links[..|links|] == links;
  }

  /** The `with open(...)` block: the heading, the summary line when a website
      was given, then the listing. */
  method WriteRecord(phrase: string, website: string, position: Option<nat>, links: seq<RankedLink>)
    returns (content: string)
    ensures content == Content(phrase, website, position, links)
  {
    content := Heading(phrase);
    if website != "" {
      if Truthy(position) {
        content := content + FoundLine(website, position.value);
      } else {
        content := content + NotFoundLine(website);
      }
    }
    assert content == Heading(phrase) + WebsiteLine(website, position);
    content := WriteListing(content, links);
  }
}

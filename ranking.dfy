/** Ranks of result links and the rank at which the target website first
    appears (the body of the `for item in items` loop). */
module Ranking {
  import opened Wrappers
  import opened Text

  /** One entry of `links`: the tuple `(position, link)`. */
  datatype RankedLink = RankedLink(rank: nat, url: string)

  /** Python truthiness of `website_position`: `None` and `0` are false. */
  predicate Truthy(p: Option<nat>)
  {
    p.Some? && p.value != 0
  }

  /** `website.lower() in link.lower()`. */
  predicate Matches(website: string, link: string)
  {
    Contains(Lower(link), Lower(website))
  }

  /** The links in the order received, each with its 1-based rank. */
  function Ranked(urls: seq<string>): seq<RankedLink>
  {
    seq(|urls|, i requires 0 <= i < |urls| => RankedLink(i + 1, urls[i]))
  }

  /** Ranking one more link gives it the next rank. */
  lemma RankedSnoc(urls: seq<string>, link: string)
    ensures Ranked(urls + [link]) == Ranked(urls) + [RankedLink(|urls| + 1, link)]
  {
  }

  /** The rank the handler records, processing `urls` one at a time: once set it
      is kept, and an empty `website` never sets it. */
  function FirstMatch(website: string, urls: seq<string>): (r: Option<nat>)
    ensures r.Some? ==> 1 <= r.value <= |urls|
    decreases |urls|
  {
    if website == "" || urls == [] then None
    else
      match FirstMatch(website, urls[..|urls| - 1])
      case Some(p) => Some(p)
      case None => if Matches(website, urls[|urls| - 1]) then Some(|urls|) else None
  }

  /** The rank recorded is the smallest rank whose link contains the website,
      and there is none exactly when the website is empty or no link contains
      it. */
  lemma {:induction false} FirstMatchIsFirst(website: string, urls: seq<string>)
    ensures var r := FirstMatch(website, urls);
      && (r.Some? ==> website != "" && Matches(website, urls[r.value - 1]))
      && (r.Some? ==> forall j :: 0 <= j < r.value - 1 ==> !Matches(website, urls[j]))
      && (r.None? <==> website == "" || forall j :: 0 <= j < |urls| ==> !Matches(website, urls[j]))
    decreases |urls|
  {
    if website != "" && urls != [] {
      var prefix := urls[..|urls| - 1];
      FirstMatchIsFirst(website, prefix);
      assert forall j :: 0 <= j < |prefix| ==> prefix[j] == urls[j];
    }
  }

  /** Once a rank is recorded, later links never change it; before that, the
      rank found in later links is shifted by the number of earlier links. */
  lemma {:induction false} FirstMatchAppend(website: string, earlier: seq<string>, later: seq<string>)
    ensures FirstMatch(website, earlier).Some? ==>
      FirstMatch(website, earlier + later) == FirstMatch(website, earlier)
    ensures FirstMatch(website, earlier).None? ==>
      FirstMatch(website, earlier + later) ==
        match FirstMatch(website, later)
        case None => None
        case Some(p) => Some(|earlier| + p)
    decreases |later|
  {
    if later != [] {
      var init := later[..|later| - 1];
      assert (earlier + later)[..|earlier + later| - 1] == earlier + init;
      FirstMatchAppend(website, earlier, init);
    } else {
      assert earlier + later == earlier;
    }
  }

  /** The loop step: the rank after one more link. */
  lemma FirstMatchSnoc(website: string, urls: seq<string>, link: string)
    ensures FirstMatch(website, urls + [link]) ==
      if website != "" && !Truthy(FirstMatch(website, urls)) && Matches(website, link)
      then Some(|urls| + 1) else FirstMatch(website, urls)
  {
    assert (urls + [link])[..|urls|] == urls;
  }
}

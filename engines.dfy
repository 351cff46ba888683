/**
 * The four search engines of the parser, the paging offset each one's URL
 * carries, the URL itself, and the filter `get_search_results` applies to the
 * `href` attributes of the result elements it finds.
 */
module Engines {
  import opened Wrappers
  import opened PyStr

  datatype Engine = Google | Bing | DuckDuckGo | Yahoo

  /** The engines in the order of the parser's dictionary of URL templates, the order they are tried in. */
  const Order: seq<Engine> := [Google, Bing, DuckDuckGo, Yahoo]

  /** The template up to its first `{}`, where the dork goes. */
  function QueryPrefix(e: Engine): string {
    match e
    case Google => "https://www.google.com/search?q="
    case Bing => "https://www.bing.com/search?q="
    case DuckDuckGo => "https://duckduckgo.com/?q="
    case Yahoo => "https://search.yahoo.com/search?p="
  }

  /** The template between its two `{}`: the name of the paging parameter. */
  function PageKey(e: Engine): string {
    match e
    case Google => "&start="
    case Bing => "&first="
    case DuckDuckGo => "&s="
    case Yahoo => "&b="
  }

  /**
   * The paging parameter for a zero-based page number: ten results a page,
   * counted from 0 by Google and DuckDuckGo and from 1 by Bing and Yahoo.
   */
  function Offset(e: Engine, page: nat): (n: nat)
    ensures n / 10 == page
    ensures n % 10 == (if e == Bing || e == Yahoo then 1 else 0)
  {
    match e
    case Google => 10 * page
    case Bing => 10 * page + 1
    case DuckDuckGo => 10 * page
    case Yahoo => 10 * page + 1
  }

  /** How the four offsets relate to each other and to the next page. */
  lemma OffsetsAgree(page: nat)
    ensures Offset(Google, page) == Offset(DuckDuckGo, page) == 10 * page
    ensures Offset(Bing, page) == Offset(Yahoo, page) == Offset(Google, page) + 1
    ensures Offset(Bing, page) >= 1
    ensures forall e :: Offset(e, page + 1) == Offset(e, page) + 10
  {
  }

  /** The dork and the offset substituted into the engine's template (the dork is not URL-encoded). */
  function SearchUrl(e: Engine, dork: string, page: nat): (url: string)
    ensures StartsWith(url, QueryPrefix(e) + dork + PageKey(e))
    ensures var rest := url[|QueryPrefix(e) + dork + PageKey(e)|..];
      IsDigits(rest) && DecimalValue(rest) / 10 == page && DecimalValue(rest) == Offset(e, page)
      && rest != [] && (rest[0] == '0' ==> |rest| == 1)
  {
    var head := QueryPrefix(e) + dork + PageKey(e);
    var url := head + Decimal(Offset(e, page));
    assert url[|head|..] == Decimal(Offset(e, page));
    DecimalRoundTrip(Offset(e, page));
    url
  }

  // ---------------------------------------------------------------- links

  /** Whether `get_search_results` keeps an `href` value: present, non-empty, `http…`, and for Google not on google.com. */
  predicate Keep(e: Engine, href: Option<string>) {
    && href.Some?
    && href.value != ""
    && StartsWith(href.value, "http")
    && (e == Google ==> !Contains(href.value, "google.com"))
  }

  /** The links kept from a page's `href` values, in page order. */
  function KeptLinks(e: Engine, hrefs: seq<Option<string>>): seq<string>
    decreases |hrefs|
  {
    if hrefs == [] then []
    else
      var last := hrefs[|hrefs| - 1];
      KeptLinks(e, hrefs[..|hrefs| - 1]) + (if Keep(e, last) then [last.value] else [])
  }

  function KeptCount(e: Engine, hrefs: seq<Option<string>>): nat
    decreases |hrefs|
  {
    if hrefs == [] then 0
    else KeptCount(e, hrefs[..|hrefs| - 1]) + (if Keep(e, hrefs[|hrefs| - 1]) then 1 else 0)
  }

  /**
   * The filter keeps, in order, exactly the `href`s that qualify: every kept
   * link starts with "http" (and, for Google, avoids google.com), every
   * qualifying `href` is kept, and as many links are kept as qualify.
   */
  lemma {:induction false} KeptLinksSpec(e: Engine, hrefs: seq<Option<string>>)
    ensures IsSubsequence(Somes(KeptLinks(e, hrefs)), hrefs)
    ensures forall i :: 0 <= i < |KeptLinks(e, hrefs)| ==> Keep(e, Some(KeptLinks(e, hrefs)[i]))
    ensures forall i :: 0 <= i < |hrefs| && Keep(e, hrefs[i]) ==> hrefs[i].value in KeptLinks(e, hrefs)
    ensures |KeptLinks(e, hrefs)| == KeptCount(e, hrefs)
    decreases |hrefs|
  {
    if hrefs != [] {
      var init := hrefs[..|hrefs| - 1];
      var last := hrefs[|hrefs| - 1];
      KeptLinksSpec(e, init);
      var k := KeptLinks(e, init);
      if Keep(e, last) {
        assert Somes(k + [last.value])[..|k|] == Somes(k);
      } else {
        assert KeptLinks(e, hrefs) == k;
      }
      forall i | 0 <= i < |hrefs| && Keep(e, hrefs[i]) ensures hrefs[i].value in KeptLinks(e, hrefs) {
        if i < |init| {
          assert hrefs[i] == init[i];
        }
      }
    }
  }

  /** What the filter promises about each engine, in the terms of its `if`. */
  lemma LinkFilterFacts(e: Engine, hrefs: seq<Option<string>>)
    ensures forall l :: l in KeptLinks(e, hrefs) ==> StartsWith(l, "http")
    ensures e == Google ==> forall l :: l in KeptLinks(e, hrefs) ==> !Contains(l, "google.com")
    ensures e != Google ==> forall i :: 0 <= i < |hrefs| && hrefs[i].Some? && StartsWith(hrefs[i].value, "http") ==>
      hrefs[i].value in KeptLinks(e, hrefs)
  {
    KeptLinksSpec(e, hrefs);
    var r := KeptLinks(e, hrefs);
    forall l | l in r ensures Keep(e, Some(l)) {
      var i :| 0 <= i < |r| && r[i] == l;
    }
    forall i | 0 <= i < |hrefs| && hrefs[i].Some? && StartsWith(hrefs[i].value, "http") && e != Google
      ensures Keep(e, hrefs[i])
    {
      assert hrefs[i].value[..4] == "http";
    }
  }

  /** The loop over the found elements that appends each qualifying `href`. */
  method CollectLinks(e: Engine, hrefs: seq<Option<string>>) returns (links: seq<string>)
    ensures links == KeptLinks(e, hrefs)
  {
    links := [];
    for i := 0 to |hrefs|
      invariant links == KeptLinks(e, hrefs[..i])
    {
      assert hrefs[..i + 1][..i] == hrefs[..i];
      var href := hrefs[i];
      if href.Some? && href.value != "" && StartsWith(href.value, "http") && (e == Google ==> !Contains(href.value, "google.com")) {
        links := links + [href.value];
      }
    }
    assert hrefs[..|hrefs|] == hrefs;
  }

  /**
   * What loading a result page produced: the `href` attribute of every
   * element the engine's selector matched, or a failure that
   * `get_search_results` catches itself (it then returns no links).
   */
  datatype PageLoad = Loaded(hrefs: seq<Option<string>>) | LoadFailed

  function PageLinks(e: Engine, load: PageLoad): seq<string> {
    match load
    case Loaded(hrefs) => KeptLinks(e, hrefs)
    case LoadFailed => []
  }

  /** `get_search_results`: the URL it opens and the links it returns for the page it got. */
  method GetSearchResults(e: Engine, dork: string, page: nat, load: PageLoad) returns (url: string, links: seq<string>)
    ensures url == SearchUrl(e, dork, page)
    ensures links == PageLinks(e, load)
    ensures forall l :: l in links ==> StartsWith(l, "http")
  {
    url := SearchUrl(e, dork, page);
    match load
    case LoadFailed =>
      links := [];
    case Loaded(hrefs) =>
      links := CollectLinks(e, hrefs);
      LinkFilterFacts(e, hrefs);
  }
}

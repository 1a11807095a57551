/** The search collaborator (tools/search_tool.py): the per-result defaulting
    and URL normalisation of `search_web`, and the offline `_fallback_search`
    list. The HTTP request and the HTML traversal are outside the model: the
    page is given as the sequence of result elements the traversal found. */
module SearchTool {

  import opened Wrappers
  import opened PyText

  /** A search hit as the stages read it: a dictionary whose keys may be absent. */
  datatype Hit = Hit(title: Option<string>, url: Option<string>, snippet: Option<string>)

  /** What an f-string prints for `h.get(key)`: the value, or "None" when the key is absent. */
  function Show(field: Option<string>): string {
    field.GetOr("None")
  }

  /** One result element of the page: `Malformed` when reading it raised;
      otherwise the text of the title link, the `href` of the URL link (None
      when the link or its attribute is absent) and the text of the snippet
      link, each None when the element is absent. */
  datatype ResultDiv =
    | Malformed
    | ResultDiv(titleText: Option<string>, href: Option<string>, snippetText: Option<string>)

  /** The outcome of the request: it raised (network or parsing), or it gave a page. */
  datatype SearchResponse = Failed | Page(divs: seq<ResultDiv>)

  /** The five canned results of `_fallback_search`, before slicing. */
  function FallbackTable(query: string): (table: seq<Hit>)
    ensures |table| == 5
  {
    [ Hit(Some("Result 1 about " + query), Some("https://example.com/1"),
          Some("This is information about " + query + "...")),
      Hit(Some("Guide to " + query), Some("https://example.com/2"),
          Some("Comprehensive guide covering " + query + " topics...")),
      Hit(Some(query + " - Latest Updates"), Some("https://example.com/3"),
          Some("Recent developments and news about " + query + "...")),
      Hit(Some("Understanding " + query), Some("https://example.com/4"),
          Some("An in-depth look at " + query + " and its implications...")),
      Hit(Some(query + " Research Paper"), Some("https://example.com/5"),
          Some("Academic research on " + query + " and related topics...")) ]
  }

  /** Where Python's `xs[:stop]` ends on a list of length `len`. */
  function SliceStop(len: nat, stop: int): (r: nat)
    ensures r <= len
    ensures stop >= 0 ==> r == if stop < len then stop else len
    ensures stop < 0 ==> r == if len + stop > 0 then len + stop else 0
  {
    if stop >= 0 then (if stop < len then stop else len)
    else if len + stop > 0 then len + stop else 0
  }

  /** `_fallback_search(query, max_results)`. */
  function FallbackSearch(query: string, maxResults: int): (r: seq<Hit>)
    ensures |r| == SliceStop(5, maxResults)
    ensures r == FallbackTable(query)[..|r|]
  {
    FallbackTable(query)[..SliceStop(5, maxResults)]
  }

  /** The canned results carry urls https://example.com/1 to /5 in order, and
      every title and snippet mentions the query. */
  lemma FallbackResultsShape(query: string, maxResults: int, i: nat)
    requires i < |FallbackSearch(query, maxResults)|
    ensures var h := FallbackSearch(query, maxResults)[i];
      && h.url == Some("https://example.com/" + NatToString(i + 1))
      && h.title.Some? && Contains(h.title.value, query)
      && h.snippet.Some? && Contains(h.snippet.value, query)
  {
    assert FallbackSearch(query, maxResults)[i] == FallbackTable(query)[i];
    FallbackUrl(query, i);
    FallbackMentions(query, i);
  }

  lemma FallbackUrl(query: string, i: nat)
    requires i < 5
    ensures FallbackTable(query)[i].url == Some("https://example.com/" + NatToString(i + 1))
  {
    assert NatToString(i + 1) == [DigitChar(i + 1)];
    if i == 0 {
      assert "https://example.com/1" == "https://example.com/" + [DigitChar(1)];
    } else if i == 1 {
      assert "https://example.com/2" == "https://example.com/" + [DigitChar(2)];
    } else if i == 2 {
      assert "https://example.com/3" == "https://example.com/" + [DigitChar(3)];
    } else if i == 3 {
      assert "https://example.com/4" == "https://example.com/" + [DigitChar(4)];
    } else {
      assert "https://example.com/5" == "https://example.com/" + [DigitChar(5)];
    }
  }

  lemma FallbackMentions(query: string, i: nat)
    requires i < 5
    ensures var h := FallbackTable(query)[i];
      && h.title.Some? && Contains(h.title.value, query)
      && h.snippet.Some? && Contains(h.snippet.value, query)
  {
    if i == 0 {
      assert "Result 1 about " + query + "" == "Result 1 about " + query;
      ContainsMiddle("Result 1 about ", query, "");
      ContainsMiddle("This is information about ", query, "...");
    } else if i == 1 {
      assert "Guide to " + query + "" == "Guide to " + query;
      ContainsMiddle("Guide to ", query, "");
      ContainsMiddle("Comprehensive guide covering ", query, " topics...");
    } else if i == 2 {
      assert "" + query + " - Latest Updates" == query + " - Latest Updates";
      ContainsMiddle("", query, " - Latest Updates");
      ContainsMiddle("Recent developments and news about ", query, "...");
    } else if i == 3 {
      assert "Understanding " + query + "" == "Understanding " + query;
      ContainsMiddle("Understanding ", query, "");
      ContainsMiddle("An in-depth look at ", query, " and its implications...");
    } else {
      assert "" + query + " Research Paper" == query + " Research Paper";
      ContainsMiddle("", query, " Research Paper");
      ContainsMiddle("Academic research on ", query, " and related topics...");
    }
  }

  /** The url of a result: the `href`, with "https://" put in front unless it
      already starts with "http". */
  function NormalizeUrl(href: Option<string>): (url: string)
    ensures StartsWith(url, "http")
    ensures StartsWith(href.GetOr(""), "http") ==> url == href.GetOr("")
    ensures !StartsWith(href.GetOr(""), "http") ==> url == "https://" + href.GetOr("")
  {
    var u := href.GetOr("");
    if StartsWith(u, "http") then u else "https://" + u
  }

  /** The hit `search_web` records for a result element it could read. */
  function NormalizeDiv(d: ResultDiv): (h: Hit)
    requires d.ResultDiv?
    ensures h.title.Some? && h.url.Some? && h.snippet.Some?
    ensures h.title.value == if d.titleText.Some? then d.titleText.value else "No title"
    ensures h.snippet.value == if d.snippetText.Some? then d.snippetText.value else "No description"
  {
    Hit(Some(d.titleText.GetOr("No title")), Some(NormalizeUrl(d.href)),
        Some(d.snippetText.GetOr("No description")))
  }

  /** The results of reading the elements in order, skipping the malformed ones. */
  function Normalized(divs: seq<ResultDiv>): (hits: seq<Hit>)
    ensures |hits| <= |divs|
    ensures forall k :: 0 <= k < |hits| ==>
      hits[k].title.Some? && hits[k].snippet.Some? &&
      hits[k].url.Some? && StartsWith(hits[k].url.value, "http")
  {
    if divs == [] then []
    else
      var last := divs[|divs| - 1];
      Normalized(divs[..|divs| - 1]) + (if last.Malformed? then [] else [NormalizeDiv(last)])
  }

  /** Reading two runs of elements one after the other gives the results of
      the first run followed by those of the second: order is kept. */
  lemma {:induction false} NormalizedAppend(xs: seq<ResultDiv>, ys: seq<ResultDiv>)
    ensures Normalized(xs + ys) == Normalized(xs) + Normalized(ys)
  {
    if ys == [] {
      assert xs + ys == xs;
    } else {
      var n := |ys|;
      assert (xs + ys)[..|xs + ys| - 1] == xs + ys[..n - 1];
      NormalizedAppend(xs, ys[..n - 1]);
    }
  }

  /** When no element is malformed, every element yields the hit at its own position. */
  lemma {:induction false} NormalizedAllReadable(divs: seq<ResultDiv>)
    requires forall k :: 0 <= k < |divs| ==> divs[k].ResultDiv?
    ensures |Normalized(divs)| == |divs|
    ensures forall k :: 0 <= k < |divs| ==> Normalized(divs)[k] == NormalizeDiv(divs[k])
  {
    if divs != [] {
      NormalizedAllReadable(divs[..|divs| - 1]);
    }
  }

  /** The loop of `search_web` over the result elements. */
  method ReadResults(divs: seq<ResultDiv>) returns (results: seq<Hit>)
    ensures results == Normalized(divs)
  {
    results := [];
    var i := 0;
    while i < |divs|
      invariant 0 <= i <= |divs|
      invariant results == Normalized(divs[..i])
    {
      assert divs[..i + 1][..i] == divs[..i];
      match divs[i] {
        case Malformed =>
        case ResultDiv(titleText, href, snippetText) =>
          var title := if titleText.Some? then titleText.value else "No title";
          var url := if href.Some? then href.value else "";
          if !StartsWith(url, "http") {
            url := "https://" + url;
          }
          var snippet := if snippetText.Some? then snippetText.value else "No description";
          results := results + [Hit(Some(title), Some(url), Some(snippet))];
      }
      i := i + 1;
    }
    assert divs[..i] == divs;
  }

  /** What `search_web` returns. */
  function SearchWebSpec(query: string, maxResults: int, response: SearchResponse): seq<Hit> {
    match response
    case Failed => FallbackSearch(query, maxResults)
    case Page(divs) => Normalized(divs)
  }

  /** `search_web(query, max_results)`: never raises; a failed request gives
      the canned results. */
  method SearchWeb(query: string, maxResults: int, response: SearchResponse) returns (hits: seq<Hit>)
    ensures hits == SearchWebSpec(query, maxResults, response)
    ensures response.Failed? ==> |hits| == SliceStop(5, maxResults)
    ensures forall k :: 0 <= k < |hits| ==> hits[k].url.Some? && StartsWith(hits[k].url.value, "http")
  {
    match response
    case Failed =>
      hits := FallbackSearch(query, maxResults);
    case Page(divs) =>
      hits := ReadResults(divs);
  }
}

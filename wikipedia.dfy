/** The Wikipedia provider of package `search`: the search hits of the
    MediaWiki API become results whose description is the hit's snippet
    without markup and whose link is the article's page URL. */
module Wikipedia {
  import opened Wrappers
  import opened Text
  import opened UrlEscape
  import opened SearchTypes

  const Name: string := "wikipedia"
  const Priority: int := 3
  /** Every Wikipedia result gets this relevance. */
  const WikiRelevance: real := 0.8
  const PagePrefix: string := "https://en.wikipedia.org/wiki/"

  const ErrCreate: string := "wikipedia: failed to create request"
  const ErrRequest: string := "wikipedia: request failed"
  const ErrDecode: string := "wikipedia: failed to decode response"

  /** The four entity replacements, in the order they are applied. */
  function DecodeEntities(s: string): string {
    ReplaceAll(ReplaceAll(ReplaceAll(ReplaceAll(s, "&quot;", "\""), "&amp;", "&"), "&lt;", "<"), "&gt;", ">")
  }

  /** `cleanHTML`: tags first, then entities, then surrounding whitespace. */
  function CleanHTML(html: string): string {
    TrimSpace(DecodeEntities(StripTags(html)))
  }

  /** Every replacement is by a shorter text, so decoding never lengthens. */
  lemma DecodeEntitiesShrinks(s: string)
    ensures |DecodeEntities(s)| <= |s|
  {
    var s1 := ReplaceAll(s, "&quot;", "\"");
    var s2 := ReplaceAll(s1, "&amp;", "&");
    var s3 := ReplaceAll(s2, "&lt;", "<");
    ReplaceAllShrinks(s, "&quot;", "\"");
    ReplaceAllShrinks(s1, "&amp;", "&");
    ReplaceAllShrinks(s2, "&lt;", "<");
    ReplaceAllShrinks(s3, "&gt;", ">");
  }

  /** A cleaned snippet has no surrounding whitespace and is no longer than
      the snippet. */
  lemma CleanHTMLShape(html: string)
    ensures Trimmed(CleanHTML(html))
    ensures |CleanHTML(html)| <= |html|
  {
    StripTagsShrinks(html);
    DecodeEntitiesShrinks(StripTags(html));
  }

  /** The article name in a page URL: spaces become underscores. */
  function PageName(title: string): string {
    ReplaceAll(title, " ", "_")
  }

  /** `https://en.wikipedia.org/wiki/` followed by the path-escaped page
      name. */
  function PageURL(title: string): (u: string)
    requires IsBytes(title)
  {
    ReplaceAllBytes(title, " ", "_");
    PagePrefix + PathEscape(PageName(title))
  }

  /** One item of the decoded `query.search` array. */
  datatype Hit = Hit(title: string, snippet: string)

  /** The HTTP exchange: the request could not be built or sent, the JSON
      did not decode, or the decoded hits. */
  datatype Response =
    | CreateFailed
    | RequestFailed
    | DecodeFailed
    | Decoded(hits: seq<Hit>)

  /** Titles are byte strings. */
  predicate ByteTitles(hits: seq<Hit>) {
    forall i :: 0 <= i < |hits| ==> IsBytes(hits[i].title)
  }

  /** The result for one hit. */
  function HitResult(hit: Hit): Result
    requires IsBytes(hit.title)
  {
    Result(hit.title, PageURL(hit.title), CleanHTML(hit.snippet), WikiRelevance)
  }

  /** The conversion loop: exactly one result per hit, in order. */
  method ConvertHits(hits: seq<Hit>) returns (results: seq<Result>)
    requires ByteTitles(hits)
    ensures |results| == |hits|
    ensures forall i :: 0 <= i < |hits| ==> results[i] == HitResult(hits[i])
  {
    results := [];
    for i := 0 to |hits|
      invariant results == HitResults(hits[..i])
    {
      assert hits[..i + 1][..i] == hits[..i];
      results := results + [HitResult(hits[i])];
    }
    assert hits[..|hits|] == hits;
    HitResultsSpec(hits);
  }

  /** The results of a list of hits, in order. */
  function HitResults(hits: seq<Hit>): seq<Result>
    requires ByteTitles(hits)
  {
    if hits == [] then [] else HitResults(hits[..|hits| - 1]) + [HitResult(hits[|hits| - 1])]
  }

  lemma {:induction false} HitResultsSpec(hits: seq<Hit>)
    requires ByteTitles(hits)
    ensures |HitResults(hits)| == |hits|
    ensures forall i :: 0 <= i < |hits| ==> HitResults(hits)[i] == HitResult(hits[i])
  {
    if hits != [] {
      var init := hits[..|hits| - 1];
      HitResultsSpec(init);
      var rs := HitResults(hits);
      assert rs == HitResults(init) + [HitResult(hits[|hits| - 1])];
      forall i | 0 <= i < |hits| ensures rs[i] == HitResult(hits[i]) {
        if i < |init| {
          assert rs[i] == HitResults(init)[i];
          assert init[i] == hits[i];
        }
      }
    }
  }

  /** One search: each failing step of the exchange has its own error. */
  method Search(response: Response) returns (results: seq<Result>, err: Option<string>)
    requires response.Decoded? ==> ByteTitles(response.hits)
    ensures response.CreateFailed? ==> results == [] && err == Some(ErrCreate)
    ensures response.RequestFailed? ==> results == [] && err == Some(ErrRequest)
    ensures response.DecodeFailed? ==> results == [] && err == Some(ErrDecode)
    ensures response.Decoded? ==>
      err == None && |results| == |response.hits|
      && forall i :: 0 <= i < |results| ==> results[i] == HitResult(response.hits[i])
  {
    match response
    case CreateFailed => return [], Some(ErrCreate);
    case RequestFailed => return [], Some(ErrRequest);
    case DecodeFailed => return [], Some(ErrDecode);
    case Decoded(hits) =>
      results := ConvertHits(hits);
      err := None;
  }

  /** The part after the prefix has no space and no raw `/`: a title with a
      slash is escaped into a single path segment. */
  lemma PageURLSafe(title: string)
    requires IsBytes(title)
    ensures HasPrefix(PageURL(title), PagePrefix)
    ensures var name := PageURL(title)[|PagePrefix|..];
      ' ' !in name && '/' !in name
  {
    ReplaceAllBytes(title, " ", "_");
    PathEscapeSafe(PageName(title));
    assert PageURL(title)[|PagePrefix|..] == PathEscape(PageName(title));
  }

  /** Path-unescaping the part after the prefix gives back the page name. */
  lemma PageURLDecodes(title: string)
    requires IsBytes(title)
    ensures PathUnescape(PageURL(title)[|PagePrefix|..]) == Some(PageName(title))
  {
    ReplaceAllBytes(title, " ", "_");
    PathEscapeRoundTrip(PageName(title));
    assert PageURL(title)[|PagePrefix|..] == PathEscape(PageName(title));
  }

  /** The page name is the title with every space turned into `_`. */
  lemma {:induction false} PageNameSpaces(title: string)
    ensures |PageName(title)| == |title|
    ensures forall i :: 0 <= i < |title| ==>
      PageName(title)[i] == if title[i] == ' ' then '_' else title[i]
    decreases |title|
  {
    if title != [] {
      PageNameSpaces(title[1..]);
    }
  }

  /** No pattern occurs in text that lacks one of its chars. */
  lemma NoOccurrence(s: string, pat: string, k: int)
    requires 0 <= k < |pat| && pat[k] !in s
    ensures forall i :: 0 <= i <= |s| - |pat| ==> !OccursAt(s, pat, i)
  {
    forall i | 0 <= i <= |s| - |pat| ensures !OccursAt(s, pat, i) {
      assert s[i + k] in s;
      assert s[i..i + |pat|][k] == s[i + k];
    }
  }

  /** A snippet with no `<`, no `&` and no surrounding whitespace comes back
      unchanged. */
  lemma CleanHTMLPlain(html: string)
    requires '<' !in html && '&' !in html && Trimmed(html)
    ensures CleanHTML(html) == html
  {
    StripTagsNoOpen(html);
    NoOccurrence(html, "&quot;", 0);
    ReplaceAllNoMatch(html, "&quot;", "\"");
    NoOccurrence(html, "&amp;", 0);
    ReplaceAllNoMatch(html, "&amp;", "&");
    NoOccurrence(html, "&lt;", 0);
    ReplaceAllNoMatch(html, "&lt;", "<");
    NoOccurrence(html, "&gt;", 0);
    ReplaceAllNoMatch(html, "&gt;", ">");
  }

  /** `&amp;` is decoded before `&lt;`, so a double-escaped `<` ends up as
      a literal `<`. */
  lemma DoubleEscapedLess()
    ensures CleanHTML("&amp;lt;") == "<"
  {
    DoubleEscapedHasNoTag();
    DoubleEscapedDecodes();
    LessTrimmed();
  }

  lemma LessAbsent(s: string)
    requires forall i :: 0 <= i < |s| ==> s[i] != '<'
    ensures '<' !in s
  {
  }

  lemma DoubleEscapedHasNoTag()
    ensures StripTags("&amp;lt;") == "&amp;lt;"
  {
    LessAbsent("&amp;lt;");
    StripTagsNoOpen("&amp;lt;");
  }

  lemma LessTrimmed()
    ensures TrimSpace("<") == "<"
  {
    assert Trimmed("<");
  }

  lemma DoubleEscapedDecodes()
    ensures DecodeEntities("&amp;lt;") == "<"
  {
    var s := "&amp;lt;";
    NoOccurrence(s, "&quot;", 1);
    ReplaceAllNoMatch(s, "&quot;", "\"");
    AmpStep();
    LessStep();
    NoOccurrence("<", "&gt;", 0);
    ReplaceAllNoMatch("<", "&gt;", ">");
  }

  lemma AmpStep()
    ensures ReplaceAll("&amp;lt;", "&amp;", "&") == "&lt;"
  {
    assert "&amp;lt;"[..5] == "&amp;";
    assert "&amp;lt;"[5..] == "lt;";
    NoOccurrence("lt;", "&amp;", 0);
    ReplaceAllNoMatch("lt;", "&amp;", "&");
    assert "&" + "lt;" == "&lt;";
  }

  lemma LessStep()
    ensures ReplaceAll("&lt;", "&lt;", "<") == "<"
  {
    assert "&lt;"[..4] == "&lt;";
    assert "&lt;"[4..] == [];
  }

  /** Tags are stripped before entities are decoded, so escaped markup
      survives as markup. */
  lemma EscapedTagSurvives()
    ensures CleanHTML("&lt;b&gt;") == "<b>"
  {
    EscapedTagHasNoTag();
    EscapedTagDecodes();
    BoldTagTrimmed();
  }

  lemma EscapedTagHasNoTag()
    ensures StripTags("&lt;b&gt;") == "&lt;b&gt;"
  {
    LessAbsent("&lt;b&gt;");
    StripTagsNoOpen("&lt;b&gt;");
  }

  lemma BoldTagTrimmed()
    ensures TrimSpace("<b>") == "<b>"
  {
    assert Trimmed("<b>");
  }

  lemma EscapedTagDecodes()
    ensures DecodeEntities("&lt;b&gt;") == "<b>"
  {
    var s := "&lt;b&gt;";
    NoOccurrence(s, "&quot;", 1);
    ReplaceAllNoMatch(s, "&quot;", "\"");
    NoOccurrence(s, "&amp;", 1);
    ReplaceAllNoMatch(s, "&amp;", "&");
    EscapedLessStep();
    EscapedGreaterStep();
  }

  lemma EscapedLessStep()
    ensures ReplaceAll("&lt;b&gt;", "&lt;", "<") == "<b&gt;"
  {
    var s := "&lt;b&gt;";
    assert s[..4] == "&lt;" && s[4..] == "b&gt;";
    NoOccurrence("b&gt;", "&lt;", 1);
    ReplaceAllNoMatch("b&gt;", "&lt;", "<");
    assert "<" + "b&gt;" == "<b&gt;";
  }

  lemma EscapedGreaterStep()
    ensures ReplaceAll("<b&gt;", "&gt;", ">") == "<b>"
  {
    var t := "<b&gt;";
    assert t[..4] != "&gt;" && t[1..] == "b&gt;";
    assert "b&gt;"[..4] != "&gt;" && "b&gt;"[1..] == "&gt;";
    assert "&gt;"[..4] == "&gt;" && "&gt;"[4..] == [];
    assert ">" + ReplaceAll([], "&gt;", ">") == ">";
    assert ['b'] + ">" == "b>";
    assert ['<'] + "b>" == "<b>";
  }
}

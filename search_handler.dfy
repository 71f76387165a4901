/** `HandleSearch` of package `handlers`: validation, defaults and the
    clamp on the request, the call into the aggregator, and the conversion
    of its results into the response; and `inferSource`. */
module SearchHandlers {
  import opened Wrappers
  import opened Text
  import opened SearchTypes
  import opened SearchModels
  import opened Validators
  import opened Aggregation
  import opened UrlEscape
  import DuckDuckGo

  /** A Go call either returns a value or panics. */
  datatype Outcome<T> = Returned(value: T) | Panicked

  /** `inferSource` as written: `url[0:4]` panics on a URL of one to three
      bytes. */
  function InferSourceAsWritten(url: string): (r: Outcome<string>)
    ensures r.Panicked? <==> 0 < |url| < 4
  {
    if url == "" then Returned("personal")
    else if |url| < 4 then Panicked
    else if url[0..4] == "http" then Returned("web")
    else Returned("unknown")
  }

  /** `inferSource` as intended: a prefix test that needs no length. */
  function InferSource(url: string): (r: string)
    ensures r in {"personal", "web", "unknown"}
    ensures r == "personal" <==> url == ""
    ensures r == "web" <==> HasPrefix(url, "http")
  {
    if url == "" then "personal"
    else if HasPrefix(url, "http") then "web"
    else "unknown"
  }

  /** The intended version agrees with the written one wherever that one
      returns. */
  lemma InferSourceAgrees(url: string)
    requires InferSourceAsWritten(url).Returned?
    ensures InferSourceAsWritten(url).value == InferSource(url)
  {
  }

  /** A DuckDuckGo redirect to a short target yields a result URL on which
      the written `inferSource` panics. */
  lemma InferSourcePanicReachable()
    ensures DuckDuckGo.FixDDGURL("/l/?uddg=a") == "a"
    ensures InferSourceAsWritten(DuckDuckGo.FixDDGURL("/l/?uddg=a")).Panicked?
  {
    var raw := "/l/?uddg=a";
    assert HasPrefix(raw, DuckDuckGo.RedirectPrefix);
    assert raw[|DuckDuckGo.RedirectPrefix|..] == "a";
    UnescapePlain("a", true);
  }

  /** What the handler sends back. `Aborted` is what the recovery
      middleware installed in backend-go/main.go:31 answers when the handler
      panics: the status alone, with no body. */
  datatype HttpResponse =
    | Failure(status: int, message: string)
    | Success(status: int, body: SearchResponse)
    | Aborted(status: int)

  const StatusOK: int := 200
  const StatusBadRequest: int := 400
  const StatusInternalServerError: int := 500

  const MsgBadBody: string := "Invalid request body"
  const MsgBadQuery: string := "Invalid query"
  const MsgNoSource: string := "At least one search source must be enabled"
  const MsgSearchFailed: string := "Search failed"

  /** A URL on which the written `inferSource` panics. */
  predicate ShortURL(url: string) {
    0 < |url| < 4
  }

  /** One API result built from an aggregated result, with the source
      guessed by `inferSource` as written: it panics on a short URL, and
      otherwise gives what the intended prefix test gives. */
  function ToSearchResult(r: Result): (o: Outcome<SearchResult>)
    ensures o.Panicked? <==> ShortURL(r.url)
    ensures o.Returned? ==> o.value == SearchResult(r.title, r.url, r.description, InferSource(r.url), r.relevance)
  {
    match InferSourceAsWritten(r.url)
    case Panicked => Panicked
    case Returned(source) =>
      InferSourceAgrees(r.url);
      Returned(SearchResult(r.title, r.url, r.description, source, r.relevance))
  }

  class SearchHandler {
    const aggregator: Aggregator
    const hasDocuments: bool

    /** `NewSearchHandler`: no documents yet. */
    constructor (agg: Aggregator)
      ensures aggregator == agg && !hasDocuments
    {
      aggregator := agg;
      hasDocuments := false;
    }

    /** The sources the aggregator is asked for. */
    function Sources(req: SearchRequest): SearchSources {
      ApplyDefaults(req.sources, hasDocuments)
    }

    /** The conversion loop into a slice of the aggregator's length. It
        panics as soon as it meets a short URL. */
    method ConvertResults(results: seq<Result>) returns (out: Outcome<seq<SearchResult>>)
      ensures out.Panicked? <==> exists i :: 0 <= i < |results| && ShortURL(results[i].url)
      ensures out.Returned? ==> |out.value| == |results|
      ensures out.Returned? ==> forall i :: 0 <= i < |results| ==> ToSearchResult(results[i]) == Returned(out.value[i])
    {
      var a := new SearchResult[|results|];
      for i := 0 to |results|
        invariant forall k :: 0 <= k < i ==> !ShortURL(results[k].url)
        invariant forall k :: 0 <= k < i ==> ToSearchResult(results[k]) == Returned(a[k])
      {
        var entry := ToSearchResult(results[i]);
        if entry.Panicked? {
          return Panicked;
        }
        a[i] := entry.value;
      }
      return Returned(a[..]);
    }

    /** `HandleSearch` on a decoded body (`None`: the body did not bind),
        with `attempts` the outcome of each provider the aggregator
        consults. `ranked` is what the aggregator returned and `maxUsed` the
        limit it was given. */
    method HandleSearch(req: Option<SearchRequest>, attempts: seq<Attempt>)
      returns (response: HttpResponse, ghost ranked: seq<Result>, ghost maxUsed: int)
      requires req.Some? ==>
        OnePerProvider(attempts, Selected(aggregator.providers, EnabledSources(Sources(req.value))))
      ensures req.None? ==> response == Failure(StatusBadRequest, MsgBadBody)
      ensures req.Some? && ValidateSearchQuery(req.value.query).Invalid? ==>
        response == Failure(StatusBadRequest, MsgBadQuery)
      ensures req.Some? && ValidateSearchQuery(req.value.query).Valid? ==>
        && maxUsed == ValidateMaxResults(req.value.maxResults) && 1 <= maxUsed <= MaxResultsCap
        && RankingOf(Seen(Collected(attempts)), ranked, maxUsed)
        && (Selected(aggregator.providers, EnabledSources(Sources(req.value))) == [] ==> ranked == [])
        && (response == Aborted(StatusInternalServerError) <==> exists i :: 0 <= i < |ranked| && ShortURL(ranked[i].url))
        && (response.Success? || response.Aborted?)
      ensures response.Success? ==>
        && req.Some? && response.status == StatusOK
        && response.body.query == ValidateSearchQuery(req.value.query).query
        && response.body.sourcesUsed == EnabledSources(Sources(req.value))
        && response.body.sourcesUsed != []
        && |response.body.results| == |ranked| && response.body.count == |ranked|
        && forall i :: 0 <= i < |ranked| ==> ToSearchResult(ranked[i]) == Returned(response.body.results[i])
      // neither the no-source rejection nor the search-failed error can happen
      ensures response != Failure(StatusBadRequest, MsgNoSource)
      ensures response != Failure(StatusInternalServerError, MsgSearchFailed)
    {
      ranked, maxUsed := [], 0;
      if req.None? {
        return Failure(StatusBadRequest, MsgBadBody), ranked, maxUsed;
      }
      var request := req.value;
      var validated := ValidateSearchQuery(request.query);
      if validated.Invalid? {
        return Failure(StatusBadRequest, MsgBadQuery), ranked, maxUsed;
      }
      var cleanQuery := validated.query;
      var sources := ApplyDefaults(request.sources, hasDocuments);
      var maxResults := ValidateMaxResults(request.maxResults);
      maxUsed := maxResults;
      ApplyDefaultsSpec(request.sources, hasDocuments);
      EnabledSourcesEmpty(sources);
      if !HasAnyEnabled(sources) {
        assert false;
        return Failure(StatusBadRequest, MsgNoSource), ranked, maxUsed;
      }
      var results, err := aggregator.Search(cleanQuery, maxResults, EnabledSources(sources), attempts);
      if err.Some? {
        assert false;
        return Failure(StatusInternalServerError, MsgSearchFailed), ranked, maxUsed;
      }
      ranked := results;
      var converted := ConvertResults(results);
      if converted.Panicked? {
        return Aborted(StatusInternalServerError), ranked, maxUsed;
      }
      var searchResults := converted.value;
      response := Success(StatusOK, SearchResponse(cleanQuery, searchResults, |searchResults|, EnabledSources(sources)));
    }
  }
}

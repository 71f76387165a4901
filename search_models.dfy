/** The source flags of a search request (`SearchSources` in package
    `models`). The struct is a value inside the request; `ApplyDefaults`,
    which Go runs through a pointer to that value, is modelled as the
    function from the old flags to the new ones. */
module SearchModels {

  datatype SearchSources = SearchSources(personal: bool, brave: bool, duckDuckGo: bool, wikipedia: bool)

  /** A decoded request body. */
  datatype SearchRequest = SearchRequest(query: string, maxResults: int, sources: SearchSources)

  /** One result as the API returns it (the optional metadata map is never
      filled in and is not modelled). */
  datatype SearchResult = SearchResult(title: string, url: string, description: string, source: string, relevance: real)

  datatype SearchResponse = SearchResponse(query: string, results: seq<SearchResult>, count: int, sourcesUsed: seq<string>)

  /** The source names, in the order `EnabledSources` lists them. */
  const AllSources: seq<string> := ["personal", "brave", "duckduckgo", "wikipedia"]

  /** The flag that belongs to a source name. */
  predicate Flag(s: SearchSources, name: string) {
    (name == "personal" && s.personal) || (name == "brave" && s.brave)
    || (name == "duckduckgo" && s.duckDuckGo) || (name == "wikipedia" && s.wikipedia)
  }

  predicate HasAnyEnabled(s: SearchSources) {
    s.personal || s.brave || s.duckDuckGo || s.wikipedia
  }

  /** `EnabledSources`: one name per set flag, in the fixed order. */
  function EnabledSources(s: SearchSources): (names: seq<string>)
    ensures |names| <= 4
  {
    (if s.personal then ["personal"] else [])
    + (if s.brave then ["brave"] else [])
    + (if s.duckDuckGo then ["duckduckgo"] else [])
    + (if s.wikipedia then ["wikipedia"] else [])
  }

  /** A reference definition: the names of `names` whose flag is set. */
  function FlaggedNames(s: SearchSources, names: seq<string>): seq<string> {
    if names == [] then []
    else
      var last := names[|names| - 1];
      FlaggedNames(s, names[..|names| - 1]) + (if Flag(s, last) then [last] else [])
  }

  /** `ApplyDefaults`: Personal when the user has documents, and Brave when
      nothing at all is selected. */
  function ApplyDefaults(s: SearchSources, hasDocuments: bool): SearchSources {
    var s1 := if hasDocuments && !s.personal then s.(personal := true) else s;
    if !HasAnyEnabled(s1) then s1.(brave := true) else s1
  }

  /** The reference definition, one source name at a time. */
  lemma FlaggedPersonal(s: SearchSources)
    ensures FlaggedNames(s, ["personal"]) == if s.personal then ["personal"] else []
  {
    FlagOfName(s);
    FlaggedSnoc(s, [], "personal");
    assert ["personal"] == [] + ["personal"];
  }

  lemma FlaggedBrave(s: SearchSources)
    ensures FlaggedNames(s, ["personal", "brave"])
      == (if s.personal then ["personal"] else []) + (if s.brave then ["brave"] else [])
  {
    FlaggedPersonal(s);
    FlagOfName(s);
    FlaggedSnoc(s, ["personal"], "brave");
    assert ["personal", "brave"] == ["personal"] + ["brave"];
  }

  lemma FlaggedDuckDuckGo(s: SearchSources)
    ensures FlaggedNames(s, ["personal", "brave", "duckduckgo"])
      == (if s.personal then ["personal"] else []) + (if s.brave then ["brave"] else [])
        + (if s.duckDuckGo then ["duckduckgo"] else [])
  {
    FlaggedBrave(s);
    FlagOfName(s);
    FlaggedSnoc(s, ["personal", "brave"], "duckduckgo");
    assert ["personal", "brave", "duckduckgo"] == ["personal", "brave"] + ["duckduckgo"];
  }

  /** The list is the fixed order filtered by the flags. */
  lemma EnabledSourcesInOrder(s: SearchSources)
    ensures EnabledSources(s) == FlaggedNames(s, AllSources)
  {
    FlaggedDuckDuckGo(s);
    FlagOfName(s);
    FlaggedSnoc(s, ["personal", "brave", "duckduckgo"], "wikipedia");
    assert AllSources == ["personal", "brave", "duckduckgo"] + ["wikipedia"];
  }

  lemma FlagOfName(s: SearchSources)
    ensures Flag(s, "personal") == s.personal && Flag(s, "brave") == s.brave
    ensures Flag(s, "duckduckgo") == s.duckDuckGo && Flag(s, "wikipedia") == s.wikipedia
  {
  }

  lemma FlaggedSnoc(s: SearchSources, init: seq<string>, n: string)
    ensures FlaggedNames(s, init + [n]) == FlaggedNames(s, init) + (if Flag(s, n) then [n] else [])
  {
    assert (init + [n])[..|init|] == init;
  }

  /** Exactly the set flags' names are listed, each once. */
  lemma EnabledSourcesExactly(s: SearchSources)
    ensures forall n :: n in EnabledSources(s) <==> n in AllSources && Flag(s, n)
    ensures forall i, j :: 0 <= i < j < |EnabledSources(s)| ==> EnabledSources(s)[i] != EnabledSources(s)[j]
  {
  }

  /** The list is empty exactly when no flag is set. */
  lemma EnabledSourcesEmpty(s: SearchSources)
    ensures EnabledSources(s) == [] <==> !HasAnyEnabled(s)
  {
  }

  /** No flag is cleared; Personal is on when there are documents; some flag
      is on afterwards; and Brave is switched on only when nothing was
      selected and there are no documents. */
  lemma ApplyDefaultsSpec(s: SearchSources, hasDocuments: bool)
    ensures var r := ApplyDefaults(s, hasDocuments);
      && (s.personal ==> r.personal) && (s.brave ==> r.brave)
      && (s.duckDuckGo ==> r.duckDuckGo) && (s.wikipedia ==> r.wikipedia)
      && (hasDocuments ==> r.personal)
      && HasAnyEnabled(r)
      && (r.brave && !s.brave <==> !HasAnyEnabled(s) && !hasDocuments)
      && r.duckDuckGo == s.duckDuckGo && r.wikipedia == s.wikipedia
      && (r.personal <==> s.personal || hasDocuments)
  {
  }

  /** Applying the defaults twice is applying them once. */
  lemma ApplyDefaultsIdempotent(s: SearchSources, hasDocuments: bool)
    ensures ApplyDefaults(ApplyDefaults(s, hasDocuments), hasDocuments) == ApplyDefaults(s, hasDocuments)
  {
  }
}

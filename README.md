# Hybrid search engine — a Dafny model of the search backend

This project models the search core of the hybrid search engine:

- **The aggregator** keeps a priority-ordered list of search providers (Brave, DuckDuckGo and Wikipedia are the ones the server registers). It filters them by the requested source names and gathers their results. It then drops failed or unavailable providers, removes duplicate URLs (keeping the most relevant copy), ranks by relevance and truncates.
- **The three web providers:**
  - Brave's daily request quota;
  - DuckDuckGo's one-second request gate, result extraction and redirect unwrapping;
  - Wikipedia's snippet cleaning and article-URL synthesis.
- **The provider registry** of the models package.
- **The request helpers and the search handler:**
  - source flags and their defaults;
  - query validation, sanitising and the result-count clamp;
  - the handler that ties these together;
  - `inferSource`.
- **Three small helpers of the older backend:** the title-length `Rank`, the Python document filter and the Python byte-quota check.

The parts that change state are modelled imperatively:

| Source entity | Dafny model |
|---|---|
| Aggregator | class `Aggregator` with a `providers` sequence |
| Brave quota fields | fields of class `BraveProvider` |
| DuckDuckGo `lastRequestTime` | field of class `DuckDuckGoProvider` |
| registry's two maps | fields of class `ProviderRegistry` |
| in-place sorts | an exchange sort on an `array` |
| `Rank`'s in-place score update | a loop over an `array` |

Each such method is proved against a specification function, and the properties are proved about those functions as lemmas.

The rest is pure: cleaning, escaping, validation, the source flags and the Python filters.

Go's library routines are modelled on Dafny strings, one `char` per byte:

| Go routine | Dafny model | Defined by |
|---|---|---|
| `url.PathEscape` | `UrlEscape.PathEscape` | section 3.3 of RFC 3986 |
| `url.QueryUnescape` | `UrlEscape.QueryUnescape` | section 2.1 of RFC 3986, with `+` as space |
| the regular expression `<[^>]*>` | `Text.StripTags` | leftmost, non-overlapping matches |
| `strings.ReplaceAll` | `Text.ReplaceAll` | |
| `strings.TrimSpace` | `Text.TrimSpace` | |

Files:

- `wrappers.dfy` — `Option`.
- `text.dfy` — trimming, replacement, tag stripping.
- `url_escape.dfy` — percent-encoding.
- `sorting.dfy` — the exchange sort and multiset helpers.
- `search_types.dfy` — `Result`.
- `aggregator.dfy`, `brave.dfy`, `duckduckgo.dfy`, `wikipedia.dfy` — package `search`.
- `provider_registry.dfy`, `search_models.dfy` — package `models`.
- `validators.dfy`, `search_handler.dfy` — packages `utils` and `handlers`.
- `ranking.dfy` — the old `Rank`.
- `doc_search.dfy`, `doc_quota.dfy` — the Python helpers.

## Model

| member | source | states |
|---|---|---|
| Aggregation.Aggregator.constructor | backend-go/services/search/aggregator.go:15-19 | a new aggregator has no providers |
| Aggregation.Selected | backend-go/services/search/aggregator.go:98-116 | defines what `filterProviders` returns: the whole list when no source is named, else `Kept` of the named set; its properties are the rows below |
| Aggregation.Kept | backend-go/services/search/aggregator.go:103-115 | defines the order-keeping filter by an allowed-name set |
| Aggregation.Aggregator.RegisterProvider | backend-go/services/search/aggregator.go:21-31 | the new list is the old list plus the provider, as a multiset, and is sorted by non-decreasing priority; duplicate names are accepted |
| Aggregation.Aggregator.FilterProviders | backend-go/services/search/aggregator.go:98-116 | the result is exactly `Selected`: the whole list when no source is named, otherwise the providers whose name is listed, in their original order |
| Aggregation.SelectedExtremes | backend-go/services/search/aggregator.go:98-116 | an empty source list keeps every provider; a non-empty list naming no provider keeps none |
| Aggregation.KeptCount | backend-go/services/search/aggregator.go:105-115 | each provider keeps its multiplicity when its name is allowed and disappears otherwise |
| Aggregation.KeptConcat | backend-go/services/search/aggregator.go:108-114 | filtering distributes over concatenation, so the original order is kept |
| Aggregation.KeptIgnoresUnknown | backend-go/services/search/aggregator.go:100-104 | source names that no provider has change nothing |
| Aggregation.Launch | backend-go/services/search/aggregator.go:55-69 | an unavailable provider sends an empty, error-free message without searching; an available one sends what its search returned |
| Aggregation.Collected | backend-go/services/search/aggregator.go:72-82 | defines the list the collection loop builds: the results of each error-free message, in arrival order |
| Aggregation.Aggregator.CollectResults | backend-go/services/search/aggregator.go:72-82 | the collected list is the concatenation, in arrival order, of the results of every message without an error |
| Aggregation.CollectedFrom | backend-go/services/search/aggregator.go:72-82 | a result is collected iff some attempt was available, returned no error and contained it |
| Aggregation.Aggregator.DeduplicateResults | backend-go/services/search/aggregator.go:118-139 | pairwise-distinct URLs (the empty URL included); the URL set is the input's; each kept result is the one the `seen` map holds for its URL; the order is left open |
| Aggregation.Seen | backend-go/services/search/aggregator.go:119-130 | defines the `seen` map after the loop: a result is stored when its URL is new or when it is strictly more relevant |
| Aggregation.SeenKeys | backend-go/services/search/aggregator.go:120-131 | the `seen` map's keys are exactly the input URLs, and each entry lies under its own URL |
| Aggregation.SeenFirstBest | backend-go/services/search/aggregator.go:122-129 | for every URL the kept result is the first input with the maximum relevance for that URL, because the comparison is strict |
| Aggregation.FirstBestUnique | backend-go/services/search/aggregator.go:122-129 | the first most relevant result for a URL is unique |
| Aggregation.Aggregator.RankResults | backend-go/services/search/aggregator.go:141-146 | the array is permuted in place into non-increasing relevance; ties are left in any order |
| Aggregation.RankedHoldsSeen | backend-go/services/search/aggregator.go:85-89 | any reordering of the deduplicated list still has distinct URLs, covers every seen URL and holds the seen results |
| Aggregation.TruncatedRanking | backend-go/services/search/aggregator.go:91-93 | cutting a sorted, deduplicated list at `n` gives `min(#URLs, n)` distinct, sorted, seen results, and no dropped result is more relevant than a kept one |
| Aggregation.Aggregator.MergeResults | backend-go/services/search/aggregator.go:85-95 | deduplicate, rank and truncate together produce a ranking of the seen map of length `min(#URLs, maxResults)` |
| Aggregation.Aggregator.Search | backend-go/services/search/aggregator.go:33-96 | needs `maxResults >= 0` and one message per selected provider; the error is always nil; no selected provider means no results; otherwise the output ranks the best result per URL gathered from the successful providers |
| Sorting.ExchangeSort | backend-go/models/provider.go:105-111 | the double loop that swaps out-of-order pairs permutes the array into non-decreasing key order |
| Brave.NextMidnight | backend-go/services/search/brave_provider.go:140-143 | the next reset instant is strictly after now and at most one day away |
| Brave.Refresh | backend-go/services/search/brave_provider.go:53-56 | defines the reload: past the reset instant the counter becomes the limit and the reset moves to the next midnight; otherwise nothing changes |
| Brave.Consume | backend-go/services/search/brave_provider.go:119-126 | defines the decrement: one less when positive, else unchanged |
| Brave.Available | backend-go/services/search/brave_provider.go:45-58 | defines the answer of `IsAvailable`: a key is set and requests remain |
| Brave.BraveProvider.constructor | backend-go/services/search/brave_provider.go:24-34 | a fresh provider has its key, a full quota, and a reset time at the next midnight |
| Brave.BraveProvider.IsAvailable | backend-go/services/search/brave_provider.go:44-59 | without a key, false and nothing changes; with a key, the quota reloads when now is past the reset instant, and the answer is whether any requests remain |
| Brave.NoKeyNeverAvailable | backend-go/services/search/brave_provider.go:45-47 | an empty key is unavailable whatever the quota, and the quota is untouched |
| Brave.BraveProvider.ConsumeQuota | backend-go/services/search/brave_provider.go:119-126 | the counter drops by one when positive and otherwise stays |
| Brave.QuotaInvariant | backend-go/services/search/brave_provider.go:119-126 | reload and decrement keep `0 <= remaining <= limit`; the decrement is exactly one unless at zero |
| Brave.RefreshSettles | backend-go/services/search/brave_provider.go:53-56 | after a check the reset instant is not in the past, so a second check at the same instant changes nothing |
| Brave.ResetRestores | backend-go/services/search/brave_provider.go:53-56 | once the reset instant has passed, the whole limit returns however much was used |
| Brave.ExchangeError | backend-go/services/search/brave_provider.go:76-100 | a failed exchange gives one of the four errors, in the checked order; the decode error occurs iff the status was 200 |
| Brave.ConvertResults | backend-go/services/search/brave_provider.go:103-111 | one result per web result, in order, with title, URL and description copied and relevance 0.9 |
| Brave.BraveProvider.Search | backend-go/services/search/brave_provider.go:61-117 | unavailable, create, request, status and decode failures return their error and leave the checked quota as it was; only a success converts the results and consumes one request |
| Brave.QuotaCountdown | backend-go/services/search/brave_provider.go:44-126 | each successful search before the reset instant uses exactly one request |
| Brave.ExhaustedAfterLimit | backend-go/services/search/brave_provider.go:24-58 | from a fresh provider with a key, with no reset crossed, the provider stays available for exactly `dailyQuota` successful searches |
| DuckDuckGo.Wait | backend-go/services/search/duckduckgo_provider.go:46-52 | the sleep is never negative, and is zero on the first request or once a full interval has elapsed |
| DuckDuckGo.DuckDuckGoProvider.constructor | backend-go/services/search/duckduckgo_provider.go:23-30 | no request has been made yet (Go's zero time) |
| DuckDuckGo.DuckDuckGoProvider.Gate | backend-go/services/search/duckduckgo_provider.go:46-52 | the gate sleeps `Wait` and records the time after the sleep |
| DuckDuckGo.GateSpacing | backend-go/services/search/duckduckgo_provider.go:46-52 | the sleep never exceeds the interval, and the new timestamp is at least one interval after the previous one |
| DuckDuckGo.StampsSpaced | backend-go/services/search/duckduckgo_provider.go:46-52 | with a monotone clock, consecutive recorded timestamps are at least one second apart |
| DuckDuckGo.DuckDuckGoProvider.Search | backend-go/services/search/duckduckgo_provider.go:44-110 | the timestamp is recorded on every path, failed requests included; each failure returns its error; a parsed page yields the extraction of the examined nodes |
| DuckDuckGo.Examined | backend-go/services/search/duckduckgo_provider.go:81-84 | only the first `maxResults` nodes are examined, malformed ones counted |
| DuckDuckGo.ToResult | backend-go/services/search/duckduckgo_provider.go:87-106 | defines the result of a node: trimmed title, unwrapped href, trimmed snippet, relevance 0.7 |
| DuckDuckGo.Extract | backend-go/services/search/duckduckgo_provider.go:86-106 | defines the results of a node sequence: `ToResult` of each node with an href and a non-empty trimmed title, in document order |
| DuckDuckGo.ExtractResults | backend-go/services/search/duckduckgo_provider.go:80-107 | the callback loop computes `Extract` of the examined nodes |
| DuckDuckGo.ExtractBound | backend-go/services/search/duckduckgo_provider.go:81-107 | at most one result per node, so at most `maxResults` results |
| DuckDuckGo.ExtractConcat | backend-go/services/search/duckduckgo_provider.go:81-107 | extraction keeps document order; it distributes over concatenation |
| DuckDuckGo.ExtractSound | backend-go/services/search/duckduckgo_provider.go:86-106 | every result comes from a node that has an href and a non-empty trimmed title: trimmed title and description, unwrapped URL, relevance 0.7 |
| DuckDuckGo.FixDDGURLCases | backend-go/services/search/duckduckgo_provider.go:113-123 | with no redirect prefix, or a malformed `%` escape after it, the link is unchanged; otherwise it is the query-decoded remainder |
| DuckDuckGo.FixDDGURL | backend-go/services/search/duckduckgo_provider.go:113-123 | defines the unwrapping: with the redirect prefix and a decodable remainder, the decoded remainder; otherwise the link itself |
| DuckDuckGo.FixDDGURLRoundTrip | backend-go/services/search/duckduckgo_provider.go:113-123 | unwrapping a redirect to a query-escaped target gives the target back |
| DuckDuckGo.FixDDGURLExample | backend-go/services/search/duckduckgo_provider.go:115-120 | decoding covers the whole remainder, turning `+` into space and keeping trailing `&` parameters: "/l/?uddg=a%2Fb+c&x" becomes "a/b c&x" |
| UrlEscape.QueryEscapeRoundTrip | backend-go/services/search/duckduckgo_provider.go:116-117 | query-unescaping inverts query-escaping on every byte string |
| UrlEscape.QueryEscape | backend-go/services/search/duckduckgo_provider.go:55 | the escaping that `QueryUnescape` at line 117 inverts; defines Go's query escaping of a byte string: alphanumerics and `-_.~` kept, space as `+`, every other byte as uppercase `%XX` |
| UrlEscape.Unescape | backend-go/services/search/duckduckgo_provider.go:117 | decoding of `%XX` escapes (and of `+` as space in a query) fails on a bad escape and otherwise never lengthens the string |
| UrlEscape.UnescapeFailsIff | backend-go/services/search/duckduckgo_provider.go:116-119 | decoding fails iff some `%` is not followed by two hex digits |
| UrlEscape.UnescapePlain | backend-go/services/search/duckduckgo_provider.go:116-117 | a string without `%` or `+` decodes to itself |
| UrlEscape.PathEscapeRoundTrip | backend-go/services/search/wikipedia_provider.go:75-76 | path-unescaping inverts path escaping on every byte string |
| UrlEscape.PathEscapeSafe | backend-go/services/search/wikipedia_provider.go:75-76 | path escaping leaves only unreserved characters, `$&+:=@` and `%`, so no space and no `/` |
| UrlEscape.PathEscape | backend-go/services/search/wikipedia_provider.go:76 | defines Go's path-segment escaping of a byte string: alphanumerics and `-_.~$&+:=@` kept, every other byte as uppercase `%XX` |
| Text.TrimSpace | backend-go/services/search/wikipedia_provider.go:104 | the result has no leading or trailing white space, is no longer than its input, keeps only input characters, and is the input when already trimmed |
| Text.StripTags | backend-go/services/search/wikipedia_provider.go:95-96 | defines the deletion of every leftmost `<[^>]*>` match: from a `<` with a later `>`, everything up to that `>` goes |
| Text.ReplaceAll | backend-go/services/search/wikipedia_provider.go:99-102 | defines `strings.ReplaceAll`: every leftmost non-overlapping occurrence of the pattern replaced, scanning left to right |
| Text.StripTagsNoTag | backend-go/services/search/wikipedia_provider.go:95-96 | after tag stripping no `<…>` match remains |
| Text.StripTagsKeepsUnclosed | backend-go/services/search/wikipedia_provider.go:95-96 | a `<` with no later `>` survives stripping |
| Text.StripTagsNoTagIdentity | backend-go/services/search/wikipedia_provider.go:95-96 | a string with no tag is left alone |
| Text.StripTagsIdempotent | backend-go/services/search/wikipedia_provider.go:95-96 | stripping twice is stripping once |
| Text.StripTagsShrinks | backend-go/services/search/wikipedia_provider.go:95-96 | stripping never lengthens |
| Text.StripTagsChars | backend-go/services/search/wikipedia_provider.go:95-96 | stripping adds no character |
| Text.ReplaceAllNoMatch | backend-go/services/search/wikipedia_provider.go:99-102 | replacing a pattern that does not occur changes nothing |
| Text.ReplaceAllShrinks | backend-go/services/search/wikipedia_provider.go:99-102 | a replacement no longer than its pattern never lengthens the string |
| Text.DeleteCharRemovesAll | backend-go/utils/validators.go:47 | deleting a character removes every occurrence |
| Wikipedia.DecodeEntitiesShrinks | backend-go/services/search/wikipedia_provider.go:99-102 | entity decoding never lengthens |
| Wikipedia.DecodeEntities | backend-go/services/search/wikipedia_provider.go:99-102 | defines the four replacements in their source order: `&quot;`, `&amp;`, `&lt;`, `&gt;` |
| Wikipedia.CleanHTML | backend-go/services/search/wikipedia_provider.go:93-105 | defines `cleanHTML`: strip tags, then decode entities, then trim |
| Wikipedia.CleanHTMLShape | backend-go/services/search/wikipedia_provider.go:93-105 | the cleaned snippet has no surrounding white space and is no longer than the input |
| Wikipedia.CleanHTMLPlain | backend-go/services/search/wikipedia_provider.go:93-105 | a snippet with no `<`, no `&` and no surrounding white space is returned unchanged |
| Wikipedia.DoubleEscapedLess | backend-go/services/search/wikipedia_provider.go:99-102 | because `&amp;` is decoded before `&lt;`, "&amp;lt;" becomes "<" |
| Wikipedia.EscapedTagSurvives | backend-go/services/search/wikipedia_provider.go:95-102 | because entities are decoded after stripping, "&lt;b&gt;" ends as a literal "<b>" |
| Wikipedia.PageNameSpaces | backend-go/services/search/wikipedia_provider.go:76 | the page name has the title's length and differs only by every space becoming `_` |
| Wikipedia.PageURLSafe | backend-go/services/search/wikipedia_provider.go:75-76 | the URL starts with the article prefix, and the rest has no space and no `/` |
| Wikipedia.PageURLDecodes | backend-go/services/search/wikipedia_provider.go:75-76 | path-unescaping the part after the prefix gives back the underscored title |
| Wikipedia.PageURL | backend-go/services/search/wikipedia_provider.go:75-76 | defines the article URL: the prefix followed by `PathEscape` of the title with spaces as underscores |
| Wikipedia.HitResult | backend-go/services/search/wikipedia_provider.go:75-86 | defines the result of one hit: its title, its page URL, its cleaned snippet and relevance 0.8 |
| Wikipedia.HitResultsSpec | backend-go/services/search/wikipedia_provider.go:72-87 | one result per hit, in order: title kept, page URL, cleaned snippet, relevance 0.8 |
| Wikipedia.ConvertHits | backend-go/services/search/wikipedia_provider.go:72-87 | the conversion loop produces `HitResult` of each hit, in order |
| Wikipedia.Search | backend-go/services/search/wikipedia_provider.go:41-90 | create, request and decode failures return their errors and no results; a decoded reply is converted hit by hit |
| ProviderModels.InitialStatus | backend-go/models/provider.go:70-74 | a registered provider's status has its name, is available iff enabled, and is checked now |
| ProviderModels.ProviderRegistry.constructor | backend-go/models/provider.go:58-63 | both maps start empty |
| ProviderModels.ProviderRegistry.RegisterProvider | backend-go/models/provider.go:66-75 | the config is stored under its name, replacing any earlier one, with its initial status |
| ProviderModels.RegisterKeepsKeyed | backend-go/models/provider.go:66-75 | registering keeps every config stored under its own name |
| ProviderModels.RegisterReplaces | backend-go/models/provider.go:66-75 | registering a second config with the same name leaves only the second |
| ProviderModels.ProviderRegistry.GetProvider | backend-go/models/provider.go:78-81 | found iff the name is a key, with the stored config |
| ProviderModels.ProviderRegistry.GetStatus | backend-go/models/provider.go:84-87 | found iff the name has a status, with the stored status |
| ProviderModels.ProviderRegistry.UpdateStatus | backend-go/models/provider.go:90-93 | only the named status is replaced (stamped now); the configs and other statuses are unchanged |
| ProviderModels.ProviderRegistry.CollectEnabled | backend-go/models/provider.go:97-102 | the map loop visits each enabled key once, in some order, and collects its config |
| ProviderModels.SortByPriority | backend-go/models/provider.go:105-111 | the swap sort returns a permutation sorted by non-decreasing priority |
| ProviderModels.ProviderRegistry.GetEnabledProviders | backend-go/models/provider.go:96-114 | exactly the enabled configs, as many as there are enabled names, distinct when keyed by name, sorted by priority |
| ProviderModels.EnabledMembers | backend-go/models/provider.go:97-102 | a config is returned iff it is stored and enabled |
| ProviderModels.EnabledCount | backend-go/models/provider.go:97-102 | the result has one entry per enabled name |
| ProviderModels.EnabledOnce | backend-go/models/provider.go:97-102 | when every config sits under its own name, no config is returned twice |
| ProviderModels.Metadata | backend-go/models/provider.go:124-157 | metadata copies name, enabled and priority from the config |
| ProviderModels.RequiresKeyRule | backend-go/models/provider.go:124-154 | `requiresKey` is forced true for brave and false for duckduckgo, wikipedia and personal; otherwise it is whether an API key is set |
| ProviderModels.ProviderRegistry.GetMetadata | backend-go/models/provider.go:117-157 | none for an unknown name, otherwise the metadata of the stored config |
| ProviderModels.ProviderRegistry.GetAllMetadata | backend-go/models/provider.go:160-168 | exactly one entry per registered provider, in map order |
| ProviderModels.DefaultsShape | backend-go/models/provider.go:171-222 | four configs keyed by their own names; only brave is enabled; priorities are personal < brave < duckduckgo < wikipedia |
| ProviderModels.DefaultProviderConfigs | backend-go/models/provider.go:171-222 | defines the four default configurations with their names, flags, priorities, timeouts and limits |
| SearchModels.EnabledSources | backend-go/models/search.go:38-53 | at most four names |
| SearchModels.HasAnyEnabled | backend-go/models/search.go:34-36 | defines whether any of the four flags is set |
| SearchModels.ApplyDefaults | backend-go/models/search.go:56-66 | defines the defaults: documents switch on personal, then brave is switched on when nothing is set |
| SearchModels.EnabledSourcesInOrder | backend-go/models/search.go:38-53 | the list is the set flags' names in the fixed order personal, brave, duckduckgo, wikipedia |
| SearchModels.EnabledSourcesExactly | backend-go/models/search.go:38-53 | a name is listed iff its flag is set, and none is listed twice |
| SearchModels.EnabledSourcesEmpty | backend-go/models/search.go:34-53 | the list is empty iff no flag is set |
| SearchModels.ApplyDefaultsSpec | backend-go/models/search.go:56-66 | no flag is cleared; documents switch on personal; afterwards some flag is set; brave is switched on only when nothing was set and there are no documents |
| SearchModels.ApplyDefaultsIdempotent | backend-go/models/search.go:56-66 | applying the defaults twice is applying them once |
| Validators.ValidateMaxResults | backend-go/utils/validators.go:56-64 | 10 for values up to 0, 50 above 50, the value itself otherwise; always in [1, 50] |
| Validators.ValidateMaxResultsIdempotent | backend-go/utils/validators.go:56-64 | clamping twice is clamping once |
| Validators.SanitizeInput | backend-go/utils/validators.go:38-53 | no NUL, no surrounding white space, no tag, never longer than the input |
| Validators.ScriptRemovalsNoOp | backend-go/utils/validators.go:40-44 | after tag stripping the literal "<script>" and "</script>" removals change nothing |
| Validators.SanitizePlain | backend-go/utils/validators.go:38-53 | input with no `<`, no NUL and no surrounding white space is kept as is |
| Validators.ValidateSearchQuery | backend-go/utils/validators.go:17-35 | the empty error iff the trimmed query is empty; the too-long error iff it exceeds 500 characters (checked before sanitising); otherwise the sanitised trimmed query, at most 500 long |
| Validators.TagOnlyQuery | backend-go/utils/validators.go:32-34 | a query made only of a tag, "<b>", is accepted as the empty query |
| SearchHandlers.InferSourceAsWritten | backend-go/handlers/search_handler.go:94-105 | the source as written panics exactly on URLs of one to three bytes |
| SearchHandlers.InferSourcePanicReachable | backend-go/handlers/search_handler.go:99-103 | a DuckDuckGo redirect to "a" produces the URL "a", on which the written version panics |
| SearchHandlers.InferSource | backend-go/handlers/search_handler.go:94-105 | "personal" iff the URL is empty, "web" iff it starts with "http", else "unknown" |
| SearchHandlers.InferSourceAgrees | backend-go/handlers/search_handler.go:94-105 | the corrected version returns what the written one returns wherever that one does not panic |
| SearchHandlers.SearchHandler.constructor | backend-go/handlers/search_handler.go:19-24 | the handler holds its aggregator and assumes no documents |
| SearchHandlers.SearchHandler.ConvertResults | backend-go/handlers/search_handler.go:71-80 | panics iff some result has a URL of one to three bytes; otherwise one response entry per result, in order, each `ToSearchResult` of its result |
| SearchHandlers.ToSearchResult | backend-go/handlers/search_handler.go:73-79 | panics iff the URL has one to three bytes; otherwise copies title, URL, description and relevance, with the source the intended prefix test gives |
| SearchHandlers.SearchHandler.HandleSearch | backend-go/handlers/search_handler.go:26-91 | a body that does not bind and an invalid query are rejected with 400. Otherwise the limit is clamped to [1, 50], and the aggregator's output ranks the best result per URL of the successful providers (empty when no provider is selected). The request aborts with 500 iff a ranked URL has one to three bytes; otherwise a 200 whose results match that output in length and order, with count equal to that length. The no-source rejection and the search-failed error cannot happen |
| Ranking.Rank | backend/go-api/services/ranking.go:7-12 | the array is updated in place and returned: each score becomes its title length |
| Ranking.ScoredSpec | backend/go-api/services/ranking.go:8-10 | same length and order; source, title, URL and snippet unchanged; the score is the title length |
| Ranking.ScoredConcat | backend/go-api/services/ranking.go:7-12 | scoring works element by element |
| Ranking.ScoredIdempotent | backend/go-api/services/ranking.go:9 | ranking again changes nothing |
| DocSearch.SearchDocuments | backend/python_docs/search.py:4-13 | a missing index yields no documents |
| DocSearch.Filter | backend/python_docs/search.py:10-13 | defines the comprehension: the entries whose lower-cased content contains the lower-cased query, in index order |
| DocSearch.FilterCount | backend/python_docs/search.py:10-13 | each matching entry is returned as often as it occurs in the index, and a non-matching one never |
| DocSearch.FilterSound | backend/python_docs/search.py:10-13 | every returned entry matches and is in the index |
| DocSearch.FilterConcat | backend/python_docs/search.py:10-13 | the filter keeps index order |
| DocSearch.EmptyQueryReturnsAll | backend/python_docs/search.py:12 | an empty query returns every entry |
| DocSearch.Lower | backend/python_docs/search.py:12 | lower-casing keeps the length and maps each character |
| DocSearch.LowerIdempotent | backend/python_docs/search.py:12 | lower-casing twice is lower-casing once |
| DocSearch.QueryCaseIgnored | backend/python_docs/search.py:12 | the query's case does not matter |
| DocQuota.QuotaInclusive | backend/python_docs/quota.py:3-11 | a total exactly at 50 MiB is accepted and one byte more is refused |
| DocQuota.CheckQuota | backend/python_docs/quota.py:5-11 | defines `check_quota`: the sizes of the file entries plus the new size are at most 50 MiB |
| DocQuota.QuotaMonotone | backend/python_docs/quota.py:6-11 | accepting a size accepts every smaller size |
| DocQuota.NonFileIgnored | backend/python_docs/quota.py:9 | non-file entries contribute nothing |
| DocQuota.TotalConcat | backend/python_docs/quota.py:6-10 | the total is additive over the listing |
| DocQuota.TotalPermutation | backend/python_docs/quota.py:6-10 | the listing's order does not change the total |

## Left out

- Concurrency. The goroutine fan-out is left out, along with the channel and mutexes of the aggregator and the providers, and the old `WaitGroup` aggregator. Collection is a sequence of per-provider attempts in an arbitrary arrival order (`OnePerProvider` says one per selected provider).
- HTTP, JSON and HTML parsing. Request construction, `url.Values.Encode`, `http.Client.Do`, JSON decoding and goquery are foreign I/O. Their outcomes are inputs: the `Response` and `Page` datatypes and the `Node` sequence. The bodies of Brave's and Wikipedia's requests, including the query and `srlimit` parameters, are not modelled.
- The clock. `time.Now`, `time.Since` and `time.Sleep` become an integer clock passed by the caller. For DuckDuckGo, `slack` is the time the sleep overruns.
- `Brave.NextMidnight`: modelled as the next multiple of one UTC day. The contract promises only a later instant at most one day away; the local time zone of `getNextMidnight` is not modelled.
- Unicode. `strings.TrimSpace` and Python's `lower()` are modelled on ASCII white space and ASCII letters only. Strings are `char` sequences, and escaping needs each char below 256 (bytes).
- Floating point. `float64` relevance is an exact `real`, since it is only compared. `Rank`'s score is the title length.
- `sort.Slice`'s own algorithm. Both places that use it are modelled with the same exchange sort. Their contracts promise only a permutation in relevance (or priority) order, so the order of ties is left open, as in the source.
- Pointer aliasing. `*ProviderConfig` and `*ProviderStatus` are values. `UpdateStatus` also writes `LastChecked` into the caller's struct, and that write is not modelled.
- Map iteration order. It is a hidden choice (`:|` over the remaining keys). The ghost sequence of visited names is returned so that contracts can speak of it.
- Error wrapping. `fmt.Errorf` wrapping is dropped; each error is its fixed prefix string.
- `Name`, `Priority` and `IsAvailable` of the providers. They are constants in each provider module (`IsAvailable` is trivially true for DuckDuckGo and Wikipedia).
- `HandleSearch`'s binding. The Gin context and JSON binding become an `Option` request. `HealthCheck` is not part of this model.
- `SearchModels.ApplyDefaults`: Go mutates the receiver, but `SearchSources` is a plain value struct, so the model returns the new value.
- `SearchModels.EnabledSources` is a function: the source appends in fixed branches, not in a loop.
- The Python I/O. The file reads of `search_documents` and `check_quota` are abstracted away. The loaded index is an `Option` of documents (`None` when the file is missing), and the directory listing is a sequence of entries with their file flag and size. JSON errors are not modelled.
- Everything else in the repository is outside the search core: HTTP routes, middleware, configuration, document upload, the frontend and the worker scripts.

## Findings

| source | as written | input that shows it | evidently intended | confidence | as-written member | corrected member |
|---|---|---|---|---|---|---|
| backend-go/handlers/search_handler.go:99-103 | `inferSource` slices `url[0:4]` on any non-empty URL, which panics when the URL is one to three bytes long | a DuckDuckGo result whose link is "/l/?uddg=a" is unwrapped to the URL "a" | a prefix test: "web" for URLs that start with "http", "unknown" for other non-empty ones | not executed | SearchHandlers.InferSourcePanicReachable | SearchHandlers.InferSourceAgrees |

The handler model keeps the behaviour as written, because that is what the server does: `SearchHandlers.ToSearchResult` panics on a short URL, and `SearchHandlers.SearchHandler.HandleSearch` then ends in the 500 that the recovery middleware (backend-go/main.go:31) sends. Everywhere else `ToSearchResult` gives the source of the corrected `SearchHandlers.InferSource`.

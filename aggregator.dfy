/** The result-merging pipeline of backend-go/services/search/aggregator.go.
    Providers are represented by their identity (name and priority); the
    concurrent fan-out is replaced by the sequence of per-provider attempts
    in the order their messages arrive on the channel, which the model
    leaves arbitrary. */
module Aggregation {
  import opened Wrappers
  import opened SearchTypes
  import opened Sorting

  /** What the aggregator sees of a `SearchProvider`. */
  datatype ProviderEntry = ProviderEntry(name: string, priority: int)

  /** What one provider's goroutine did: whether `IsAvailable()` held, and
      what its `Search` returned if it was called. */
  datatype Attempt = Attempt(provider: string, available: bool, results: seq<Result>, err: Option<string>)

  /** The `providerResult` message a goroutine sends. */
  datatype ProviderResult = ProviderResult(results: seq<Result>, err: Option<string>, provider: string)

  /** The goroutine body: an unavailable provider sends an empty message
      without searching. */
  function Launch(a: Attempt): (m: ProviderResult)
    ensures m.provider == a.provider
    ensures !a.available ==> m.results == [] && m.err == None
    ensures a.available ==> m.results == a.results && m.err == a.err
  {
    if !a.available then ProviderResult([], None, a.provider)
    else ProviderResult(a.results, a.err, a.provider)
  }

  function ProviderNames(ps: seq<ProviderEntry>): seq<string> {
    if ps == [] then [] else ProviderNames(ps[..|ps| - 1]) + [ps[|ps| - 1].name]
  }

  function AttemptNames(as_: seq<Attempt>): seq<string> {
    if as_ == [] then [] else AttemptNames(as_[..|as_| - 1]) + [as_[|as_| - 1].provider]
  }

  /** The channel delivers exactly one message per launched provider. */
  predicate OnePerProvider(attempts: seq<Attempt>, active: seq<ProviderEntry>) {
    |attempts| == |active| && multiset(AttemptNames(attempts)) == multiset(ProviderNames(active))
  }

  /** Everything appended to `allResults`: the results of every message
      without an error, in arrival order. */
  function Collected(attempts: seq<Attempt>): seq<Result> {
    if attempts == [] then []
    else
      var m := Launch(attempts[|attempts| - 1]);
      Collected(attempts[..|attempts| - 1]) + (if m.err == None then m.results else [])
  }

  /** The providers whose name is in `names`, in their original order. */
  function Kept(ps: seq<ProviderEntry>, names: set<string>): seq<ProviderEntry> {
    if ps == [] then []
    else Kept(ps[..|ps| - 1], names) + (if ps[|ps| - 1].name in names then [ps[|ps| - 1]] else [])
  }

  /** What `filterProviders` selects. */
  function Selected(ps: seq<ProviderEntry>, enabledSources: seq<string>): seq<ProviderEntry> {
    if |enabledSources| == 0 then ps else Kept(ps, set s | s in enabledSources)
  }

  predicate SortedByPriority(ps: seq<ProviderEntry>) {
    forall i, j :: 0 <= i < j < |ps| ==> ps[i].priority <= ps[j].priority
  }

  /** The `seen` map after the dedup loop has consumed `rs`. */
  function Seen(rs: seq<Result>): map<string, Result> {
    if rs == [] then map[]
    else
      var m := Seen(rs[..|rs| - 1]);
      var r := rs[|rs| - 1];
      if r.url !in m then m[r.url := r]
      else if r.relevance > m[r.url].relevance then m[r.url := r]
      else m
  }

  /** `v` is the input at index `k`, no input with URL `u` is more relevant,
      and every earlier one with URL `u` is strictly less relevant: `v` is
      the first most relevant result for `u`. */
  predicate FirstBestAt(rs: seq<Result>, u: string, v: Result, k: int) {
    && 0 <= k < |rs| && rs[k] == v && v.url == u
    && (forall j :: 0 <= j < |rs| && rs[j].url == u ==> rs[j].relevance <= v.relevance)
    && (forall j :: 0 <= j < k && rs[j].url == u ==> rs[j].relevance < v.relevance)
  }

  class Aggregator {
    var providers: seq<ProviderEntry>

    /** `NewAggregator`. */
    constructor ()
      ensures providers == []
    {
      providers := [];
    }

    /** Appends `provider` and sorts the list by priority. Duplicate names
        are accepted; the order among equal priorities is not specified. */
    method RegisterProvider(provider: ProviderEntry)
      modifies this
      ensures multiset(providers) == multiset(old(providers)) + multiset{provider}
      ensures SortedByPriority(providers)
    {
      var prev := providers;
      var a := new ProviderEntry[|prev| + 1](i => if 0 <= i < |prev| then prev[i] else provider);
      assert a[..] == prev + [provider];
      ExchangeSort(a, (p: ProviderEntry) => p.priority as real);
      providers := a[..];
    }

    /** `filterProviders`. */
    method FilterProviders(ps: seq<ProviderEntry>, enabledSources: seq<string>)
      returns (filtered: seq<ProviderEntry>)
      ensures filtered == Selected(ps, enabledSources)
    {
      if |enabledSources| == 0 {
        return ps;
      }
      var enabled: map<string, bool> := map[];
      for i := 0 to |enabledSources|
        invariant enabled.Keys == set k | 0 <= k < i :: enabledSources[k]
        invariant forall s :: s in enabled ==> enabled[s]
      {
        enabled := enabled[enabledSources[i] := true];
      }
      assert enabled.Keys == set s | s in enabledSources by {
        forall s | s in enabledSources ensures s in enabled.Keys {
          var k :| 0 <= k < |enabledSources| && enabledSources[k] == s;
        }
      }
      filtered := [];
      for i := 0 to |ps|
        invariant filtered == Kept(ps[..i], enabled.Keys)
      {
        assert ps[..i + 1][..i] == ps[..i];
        if ps[i].name in enabled && enabled[ps[i].name] {
          filtered := filtered + [ps[i]];
        }
      }
      assert ps[..|ps|] == ps;
    }

    /** `deduplicateResults`: one result per URL (the empty URL included),
        the first most relevant one, in the unspecified order of Go's map
        iteration. */
    method DeduplicateResults(results: seq<Result>) returns (unique: seq<Result>)
      ensures DistinctUrls(unique)
      ensures Urls(unique) == Seen(results).Keys
      ensures forall i :: 0 <= i < |unique| ==> unique[i].url in Seen(results) && unique[i] == Seen(results)[unique[i].url]
    {
      var seen: map<string, Result> := map[];
      for i := 0 to |results|
        invariant seen == Seen(results[..i])
      {
        assert results[..i + 1][..i] == results[..i];
        var result := results[i];
        if result.url !in seen {
          seen := seen[result.url := result];
        } else if result.relevance > seen[result.url].relevance {
          seen := seen[result.url := result];
        }
      }
      assert results[..|results|] == results;
      SeenKeys(results);
      unique := [];
      var keys := seen.Keys;
      while keys != {}
        invariant keys <= seen.Keys
        invariant Urls(unique) == seen.Keys - keys
        invariant DistinctUrls(unique)
        invariant forall i :: 0 <= i < |unique| ==> unique[i].url in seen && unique[i] == seen[unique[i].url]
        decreases keys
      {
        var k :| k in keys;
        UrlsSnoc(unique, seen[k]);
        unique := unique + [seen[k]];
        keys := keys - {k};
      }
    }

    /** The collection loop of `Search`: the results of every message
        without an error are appended; the others are skipped. */
    method CollectResults(attempts: seq<Attempt>) returns (allResults: seq<Result>)
      ensures allResults == Collected(attempts)
    {
      allResults := [];
      for i := 0 to |attempts|
        invariant allResults == Collected(attempts[..i])
      {
        assert attempts[..i + 1][..i] == attempts[..i];
        var result := Launch(attempts[i]);
        if result.err == None {
          allResults := allResults + result.results;
        }
      }
      assert attempts[..|attempts|] == attempts;
    }

    /** `rankResults`: sorts in place by non-increasing relevance; the order
        of equally relevant results is not specified. */
    method RankResults(a: array<Result>)
      modifies a
      ensures multiset(a[..]) == old(multiset(a[..]))
      ensures SortedByRelevance(a[..])
    {
      ExchangeSort(a, (r: Result) => -r.relevance);
    }

    /** `Search` after the fan-out: drops the messages that carry an error,
        deduplicates, ranks and keeps at most `maxResults` results. The
        error it returns is always nil. A negative `maxResults` makes Go
        panic at the slice expression, hence the precondition. */
    method Search(query: string, maxResults: int, enabledSources: seq<string>, attempts: seq<Attempt>)
      returns (ranked: seq<Result>, err: Option<string>)
      requires maxResults >= 0
      requires OnePerProvider(attempts, Selected(providers, enabledSources))
      ensures err == None
      ensures Selected(providers, enabledSources) == [] ==> ranked == []
      ensures RankingOf(Seen(Collected(attempts)), ranked, maxResults)
    {
      var activeProviders := FilterProviders(providers, enabledSources);
      if |activeProviders| == 0 {
        assert attempts == [] && Collected(attempts) == [] && Seen(Collected(attempts)) == map[];
        return [], None;
      }
      var allResults := CollectResults(attempts);
      ranked := MergeResults(allResults, maxResults);
      err := None;
    }

    /** The steps of `Search` after collection: deduplicate, rank, and keep
        the first `maxResults`. */
    method MergeResults(allResults: seq<Result>, maxResults: nat) returns (ranked: seq<Result>)
      ensures RankingOf(Seen(allResults), ranked, maxResults)
    {
      var deduplicated := DeduplicateResults(allResults);
      var a := new Result[|deduplicated|](i => if 0 <= i < |deduplicated| then deduplicated[i] else Result("", "", "", 0.0));
      assert a[..] == deduplicated;
      RankResults(a);
      var sorted := a[..];
      SeenKeys(allResults);
      RankedHoldsSeen(Seen(allResults), deduplicated, sorted);
      TruncatedRanking(Seen(allResults), sorted, maxResults);
      ranked := sorted;
      if |ranked| > maxResults {
        ranked := ranked[..maxResults];
      }
      assert ranked == Truncate(sorted, maxResults);
    }
  }

  /** A reordering of the deduplicated list holds every kept result once. */
  lemma RankedHoldsSeen(seen: map<string, Result>, unique: seq<Result>, sorted: seq<Result>)
    requires DistinctUrls(unique) && Urls(unique) == seen.Keys
    requires forall i :: 0 <= i < |unique| ==> unique[i].url in seen && unique[i] == seen[unique[i].url]
    requires multiset(sorted) == multiset(unique)
    ensures DistinctUrls(sorted) && Urls(sorted) == seen.Keys && |sorted| == |seen.Keys|
    ensures forall i :: 0 <= i < |sorted| ==> sorted[i].url in seen && sorted[i] == seen[sorted[i].url]
  {
    DistinctUrlsPermutation(unique, sorted);
    DistinctUrlsCard(unique);
    assert |sorted| == |unique| by {
      assert |multiset(sorted)| == |multiset(unique)|;
    }
    PermutedKept(seen, unique, sorted);
    PermutedUrls(seen, unique, sorted);
  }

  lemma PermutedKept(seen: map<string, Result>, unique: seq<Result>, sorted: seq<Result>)
    requires forall i :: 0 <= i < |unique| ==> unique[i].url in seen && unique[i] == seen[unique[i].url]
    requires multiset(sorted) == multiset(unique)
    ensures forall i :: 0 <= i < |sorted| ==> sorted[i].url in seen && sorted[i] == seen[sorted[i].url]
  {
    forall i | 0 <= i < |sorted| ensures sorted[i].url in seen && sorted[i] == seen[sorted[i].url] {
      assert sorted[i] in multiset(unique);
    }
  }

  lemma PermutedUrls(seen: map<string, Result>, unique: seq<Result>, sorted: seq<Result>)
    requires Urls(unique) == seen.Keys
    requires forall i :: 0 <= i < |unique| ==> unique[i].url in seen
    requires multiset(sorted) == multiset(unique)
    ensures Urls(sorted) == seen.Keys
  {
    forall u | u in seen.Keys ensures u in Urls(sorted) {
      var d :| 0 <= d < |unique| && unique[d].url == u;
      assert unique[d] in multiset(sorted);
    }
    forall u | u in Urls(sorted) ensures u in seen.Keys {
      var i :| 0 <= i < |sorted| && sorted[i].url == u;
      assert sorted[i] in multiset(unique);
    }
  }

  /** `ranked` is what deduplicating into `seen`, ranking and keeping `n`
      gives: `min(|seen|, n)` results with distinct URLs, by non-increasing
      relevance, each the kept result for its URL, and every result left
      out no more relevant than any result kept. */
  predicate RankingOf(seen: map<string, Result>, ranked: seq<Result>, n: nat) {
    && |ranked| == (if |seen.Keys| < n then |seen.Keys| else n)
    && DistinctUrls(ranked) && SortedByRelevance(ranked)
    && (forall i :: 0 <= i < |ranked| ==> ranked[i].url in seen && ranked[i] == seen[ranked[i].url])
    && (forall u, i :: u in seen && u !in Urls(ranked) && 0 <= i < |ranked| ==>
          seen[u].relevance <= ranked[i].relevance)
  }

  /** The first `n` elements, or all of them when there are fewer. */
  function Truncate(s: seq<Result>, n: nat): seq<Result> {
    if |s| > n then s[..n] else s
  }

  /** Truncating a ranked list of kept results keeps them distinct, ranked
      and kept, and drops only results that are no more relevant than every
      remaining one. */
  lemma TruncatedRanking(seen: map<string, Result>, sorted: seq<Result>, n: nat)
    requires DistinctUrls(sorted) && Urls(sorted) == seen.Keys && SortedByRelevance(sorted)
    requires forall i :: 0 <= i < |sorted| ==> sorted[i].url in seen && sorted[i] == seen[sorted[i].url]
    ensures RankingOf(seen, Truncate(sorted, n), n)
  {
    DistinctUrlsCard(sorted);
    var k := |Truncate(sorted, n)|;
    assert Truncate(sorted, n) == sorted[..k];
    PrefixKept(seen, sorted, k);
    DroppedNoMoreRelevant(seen, sorted, k);
  }

  lemma PrefixKept(seen: map<string, Result>, sorted: seq<Result>, k: nat)
    requires k <= |sorted| && DistinctUrls(sorted) && SortedByRelevance(sorted)
    requires forall i :: 0 <= i < |sorted| ==> sorted[i].url in seen && sorted[i] == seen[sorted[i].url]
    ensures DistinctUrls(sorted[..k]) && SortedByRelevance(sorted[..k])
    ensures forall i :: 0 <= i < k ==> sorted[..k][i].url in seen && sorted[..k][i] == seen[sorted[..k][i].url]
  {
    assert forall i :: 0 <= i < k ==> sorted[..k][i] == sorted[i];
  }

  lemma DroppedNoMoreRelevant(seen: map<string, Result>, sorted: seq<Result>, k: nat)
    requires k <= |sorted| && Urls(sorted) == seen.Keys && SortedByRelevance(sorted)
    requires forall i :: 0 <= i < |sorted| ==> sorted[i].url in seen && sorted[i] == seen[sorted[i].url]
    ensures forall u, i :: u in seen && u !in Urls(sorted[..k]) && 0 <= i < k ==>
      seen[u].relevance <= sorted[..k][i].relevance
  {
    var r := sorted[..k];
    forall u, i | u in seen && u !in Urls(r) && 0 <= i < k
      ensures seen[u].relevance <= r[i].relevance
    {
      var p :| 0 <= p < |sorted| && sorted[p].url == u;
      assert sorted[i] == r[i];
    }
  }


  lemma UrlsSnoc(s: seq<Result>, r: Result)
    ensures Urls(s + [r]) == Urls(s) + {r.url}
  {
    var t := s + [r];
    forall u | u in Urls(t) ensures u in Urls(s) + {r.url} {
      var i :| 0 <= i < |t| && t[i].url == u;
      if i < |s| {
        assert s[i] == t[i];
      }
    }
    forall u | u in Urls(s) ensures u in Urls(t) {
      var i :| 0 <= i < |s| && s[i].url == u;
      assert t[i] == s[i];
    }
    assert t[|s|] == r;
  }

  /** The keys of `seen` are the URLs of the input, each mapped to a result
      with that URL. */
  lemma {:induction false} SeenKeys(rs: seq<Result>)
    ensures Seen(rs).Keys == Urls(rs)
    ensures forall u :: u in Seen(rs) ==> Seen(rs)[u].url == u
  {
    if rs != [] {
      var init := rs[..|rs| - 1];
      SeenKeys(init);
      assert rs == init + [rs[|rs| - 1]];
      UrlsSnoc(init, rs[|rs| - 1]);
    }
  }

  /** A list with distinct URLs has as many elements as URLs. */
  lemma {:induction false} DistinctUrlsCard(s: seq<Result>)
    requires DistinctUrls(s)
    ensures |Urls(s)| == |s|
  {
    if s != [] {
      var init := s[..|s| - 1];
      assert DistinctUrls(init) by {
        forall i, j | 0 <= i < j < |init| ensures init[i].url != init[j].url {
          assert init[i] == s[i] && init[j] == s[j];
        }
      }
      DistinctUrlsCard(init);
      assert s == init + [s[|s| - 1]];
      UrlsSnoc(init, s[|s| - 1]);
      assert s[|s| - 1].url !in Urls(init) by {
        forall i | 0 <= i < |init| ensures init[i].url != s[|s| - 1].url {
          assert init[i] == s[i];
        }
      }
    }
  }

  /** For every URL, the kept result is the first of the most relevant
      inputs with that URL: strict `>` keeps the earlier of two equals. */
  lemma {:induction false} SeenFirstBest(rs: seq<Result>)
    ensures AllFirstBest(rs)
  {
    if rs != [] {
      var init, r := rs[..|rs| - 1], rs[|rs| - 1];
      assert rs == init + [r];
      SeenFirstBest(init);
      forall u | u in Seen(rs) ensures exists k :: FirstBestAt(rs, u, Seen(rs)[u], k) {
        SeenFirstBestStep(init, r, u);
      }
    }
  }

  ghost predicate AllFirstBest(rs: seq<Result>) {
    forall u :: u in Seen(rs) ==> exists k :: FirstBestAt(rs, u, Seen(rs)[u], k)
  }

  lemma SeenFirstBestStep(init: seq<Result>, r: Result, u: string)
    requires AllFirstBest(init)
    requires u in Seen(init + [r])
    ensures exists k :: FirstBestAt(init + [r], u, Seen(init + [r])[u], k)
  {
    var rs := init + [r];
    var m := Seen(init);
    assert rs[..|rs| - 1] == init;
    if u != r.url {
      var k :| FirstBestAt(init, u, m[u], k);
      StepOther(init, r, u, m[u], k);
    } else if u !in m {
      SeenKeys(init);
      forall j | 0 <= j < |init| ensures init[j].url != r.url {
        assert init[j].url in Urls(init);
      }
      StepNew(init, r);
    } else if r.relevance > m[u].relevance {
      var k :| FirstBestAt(init, u, m[u], k);
      StepBetter(init, r, m[u], k);
    } else {
      var k :| FirstBestAt(init, u, m[u], k);
      StepWorse(init, r, m[u], k);
    }
  }

  /** A result with another URL leaves the first best for `u` in place. */
  lemma StepOther(init: seq<Result>, r: Result, u: string, v: Result, k: int)
    requires FirstBestAt(init, u, v, k) && u != r.url
    ensures FirstBestAt(init + [r], u, v, k)
  {
    assert forall j :: 0 <= j < |init| ==> (init + [r])[j] == init[j];
  }

  /** The first result for a URL is its first best. */
  lemma StepNew(init: seq<Result>, r: Result)
    requires forall j :: 0 <= j < |init| ==> init[j].url != r.url
    ensures FirstBestAt(init + [r], r.url, r, |init|)
  {
    assert forall j :: 0 <= j < |init| ==> (init + [r])[j] == init[j];
  }

  /** A strictly more relevant result takes over. */
  lemma StepBetter(init: seq<Result>, r: Result, v: Result, k: int)
    requires FirstBestAt(init, r.url, v, k) && r.relevance > v.relevance
    ensures FirstBestAt(init + [r], r.url, r, |init|)
  {
    assert forall j :: 0 <= j < |init| ==> (init + [r])[j] == init[j];
  }

  /** A result that is no more relevant changes nothing. */
  lemma StepWorse(init: seq<Result>, r: Result, v: Result, k: int)
    requires FirstBestAt(init, r.url, v, k) && r.relevance <= v.relevance
    ensures FirstBestAt(init + [r], r.url, v, k)
  {
    assert forall j :: 0 <= j < |init| ==> (init + [r])[j] == init[j];
  }

  /** "First most relevant" names a single result. */
  lemma FirstBestUnique(rs: seq<Result>, u: string, v: Result, k: int, w: Result, l: int)
    requires FirstBestAt(rs, u, v, k) && FirstBestAt(rs, u, w, l)
    ensures v == w && k == l
  {
  }

  /** A result is collected exactly when some message without an error, from
      an available provider, carried it. */
  lemma {:induction false} CollectedFrom(attempts: seq<Attempt>, r: Result)
    ensures r in Collected(attempts) <==>
      exists i :: 0 <= i < |attempts| && attempts[i].available && attempts[i].err == None && r in attempts[i].results
  {
    if attempts != [] {
      var init := attempts[..|attempts| - 1];
      var last := attempts[|attempts| - 1];
      CollectedFrom(init, r);
      assert forall i :: 0 <= i < |init| ==> init[i] == attempts[i];
      if r in Collected(attempts) && r !in Collected(init) {
        assert last.available && last.err == None && r in last.results;
      }
      if exists i :: 0 <= i < |attempts| && attempts[i].available && attempts[i].err == None && r in attempts[i].results {
        var i :| 0 <= i < |attempts| && attempts[i].available && attempts[i].err == None && r in attempts[i].results;
        if i < |init| {
          assert init[i] == attempts[i];
        }
      }
    }
  }

  /** Each provider appears in the selection as often as in the list when
      its name is allowed, and not at all otherwise. */
  lemma {:induction false} KeptCount(ps: seq<ProviderEntry>, names: set<string>, p: ProviderEntry)
    ensures multiset(Kept(ps, names))[p] == if p.name in names then multiset(ps)[p] else 0
  {
    if ps != [] {
      var init := ps[..|ps| - 1];
      KeptCount(init, names, p);
      assert ps == init + [ps[|ps| - 1]];
    }
  }

  /** Selection keeps the original order: it distributes over concatenation. */
  lemma {:induction false} KeptConcat(a: seq<ProviderEntry>, b: seq<ProviderEntry>, names: set<string>)
    ensures Kept(a + b, names) == Kept(a, names) + Kept(b, names)
    decreases |b|
  {
    if b == [] {
      assert a + b == a;
    } else {
      var init := b[..|b| - 1];
      KeptConcat(a, init, names);
      assert (a + b)[..|a + b| - 1] == a + init;
      assert (a + b)[|a + b| - 1] == b[|b| - 1];
    }
  }

  /** Names that no provider has are ignored. */
  lemma {:induction false} KeptIgnoresUnknown(ps: seq<ProviderEntry>, names: set<string>, unknown: set<string>)
    requires forall i :: 0 <= i < |ps| ==> ps[i].name !in unknown
    ensures Kept(ps, names + unknown) == Kept(ps, names)
  {
    if ps != [] {
      var init := ps[..|ps| - 1];
      KeptIgnoresUnknown(init, names, unknown);
    }
  }

  /** With no allowed names every provider is a candidate; with only
      unregistered names there is none. */
  lemma SelectedExtremes(ps: seq<ProviderEntry>, enabledSources: seq<string>)
    ensures enabledSources == [] ==> Selected(ps, enabledSources) == ps
    ensures enabledSources != [] && (forall i :: 0 <= i < |ps| ==> ps[i].name !in enabledSources) ==>
      Selected(ps, enabledSources) == []
  {
    if enabledSources != [] && (forall i :: 0 <= i < |ps| ==> ps[i].name !in enabledSources) {
      var names := set s | s in enabledSources;
      KeptIgnoresUnknown(ps, {}, names);
      assert {} + names == names;
      KeptNone(ps);
    }
  }

  lemma {:induction false} KeptNone(ps: seq<ProviderEntry>)
    ensures Kept(ps, {}) == []
  {
    if ps != [] {
      KeptNone(ps[..|ps| - 1]);
    }
  }
}

/** The provider records of package `models` and the `ProviderRegistry`
    that keeps a configuration and a status per provider name. Clock
    readings are integers passed in by the caller, and Go's zero time is 0. */
module ProviderModels {
  import opened Wrappers
  import opened Sorting

  datatype RateLimit = RateLimit(requestsPerMinute: int, requestsPerDay: int, burstSize: int)

  datatype ProviderConfig = ProviderConfig(
    name: string,
    apiKey: string,
    enabled: bool,
    priority: int,
    timeout: int,
    maxResults: int,
    rateLimit: RateLimit)

  datatype ProviderStatus = ProviderStatus(
    name: string,
    available: bool,
    lastChecked: int,
    lastError: string,
    totalRequests: int,
    successfulRequests: int,
    failedRequests: int,
    avgResponseTime: real,
    currentQuotaUsage: int,
    quotaLimit: int,
    nextQuotaReset: int)

  datatype ProviderMetadata = ProviderMetadata(
    name: string,
    displayName: string,
    description: string,
    icon: string,
    website: string,
    requiresKey: bool,
    enabled: bool,
    priority: int)

  const ZeroTime: int := 0

  /** The status `RegisterProvider` starts a provider with: its name, whether
      it is enabled, the time of registration, and zero everywhere else. */
  function InitialStatus(config: ProviderConfig, now: int): (st: ProviderStatus)
    ensures st.name == config.name && st.available == config.enabled && st.lastChecked == now
  {
    ProviderStatus(config.name, config.enabled, now, "", 0, 0, 0, 0.0, 0, 0, ZeroTime)
  }

  /** The metadata `GetMetadata` derives from the configuration found under
      `name`. The switch is on the name asked for, and for the four known
      providers it overrides whether a key is required. */
  function Metadata(name: string, config: ProviderConfig): (m: ProviderMetadata)
    ensures m.name == config.name && m.enabled == config.enabled && m.priority == config.priority
    ensures m.icon == ""
  {
    var base := ProviderMetadata(config.name, "", "", "", "", config.apiKey != "", config.enabled, config.priority);
    if name == "brave" then
      base.(displayName := "Brave Search", description := "Fast, privacy-focused search engine",
            website := "https://search.brave.com", requiresKey := true)
    else if name == "duckduckgo" then
      base.(displayName := "DuckDuckGo", description := "Privacy-focused search engine",
            website := "https://duckduckgo.com", requiresKey := false)
    else if name == "wikipedia" then
      base.(displayName := "Wikipedia", description := "Free encyclopedia",
            website := "https://wikipedia.org", requiresKey := false)
    else if name == "personal" then
      base.(displayName := "Personal Documents", description := "Your uploaded documents and files",
            requiresKey := false)
    else base
  }

  /** Every configuration is stored under its own name. */
  predicate KeyedByName(m: map<string, ProviderConfig>) {
    forall k :: k in m ==> m[k].name == k
  }

  /** The names whose configuration is enabled. */
  function EnabledNames(m: map<string, ProviderConfig>): set<string> {
    set k | k in m && m[k].enabled
  }

  predicate NoDuplicates(names: seq<string>) {
    forall i, j :: 0 <= i < j < |names| ==> names[i] != names[j]
  }

  predicate SortedByPriority(cs: seq<ProviderConfig>) {
    forall i, j :: 0 <= i < j < |cs| ==> cs[i].priority <= cs[j].priority
  }

  /** The configurations stored under `names`, in that order. */
  function Lookup(m: map<string, ProviderConfig>, names: seq<string>): (cs: seq<ProviderConfig>)
    requires forall i :: 0 <= i < |names| ==> names[i] in m
    ensures |cs| == |names| && forall i :: 0 <= i < |names| ==> cs[i] == m[names[i]]
  {
    if names == [] then [] else Lookup(m, names[..|names| - 1]) + [m[names[|names| - 1]]]
  }

  class ProviderRegistry {
    var providers: map<string, ProviderConfig>
    var status: map<string, ProviderStatus>

    /** `NewProviderRegistry`: nothing registered. */
    constructor ()
      ensures providers == map[] && status == map[]
    {
      providers := map[];
      status := map[];
    }

    /** Stores `config` under its name, replacing any earlier entry, and
        starts its status afresh. */
    method RegisterProvider(config: ProviderConfig, now: int)
      modifies this
      ensures providers == old(providers)[config.name := config]
      ensures status == old(status)[config.name := InitialStatus(config, now)]
    {
      providers := providers[config.name := config];
      status := status[config.name := InitialStatus(config, now)];
    }

    /** The configuration stored under `name`, if any. */
    function GetProvider(name: string): (r: Option<ProviderConfig>)
      reads this
      ensures r.Some? <==> name in providers
      ensures r.Some? ==> r.value == providers[name]
    {
      if name in providers then Some(providers[name]) else None
    }

    /** The status stored under `name`, if any. */
    function GetStatus(name: string): (r: Option<ProviderStatus>)
      reads this
      ensures r.Some? <==> name in status
      ensures r.Some? ==> r.value == status[name]
    {
      if name in status then Some(status[name]) else None
    }

    /** Stores `st`, stamped with the time of the update, under `name`. */
    method UpdateStatus(name: string, st: ProviderStatus, now: int)
      modifies this
      ensures providers == old(providers)
      ensures status == old(status)[name := st.(lastChecked := now)]
    {
      status := status[name := st.(lastChecked := now)];
    }

    /** The enabled configurations in priority order. The map is visited in
        an unspecified order (`names`, the keys in the order visited, is
        ghost), then the nested exchange loop sorts the slice in place. */
    method GetEnabledProviders() returns (enabled: seq<ProviderConfig>, ghost names: seq<string>)
      ensures NoDuplicates(names)
      ensures forall i :: 0 <= i < |names| ==> names[i] in providers
      ensures (set n | n in names) == EnabledNames(providers)
      ensures multiset(enabled) == multiset(Lookup(providers, names))
      ensures forall c :: c in enabled <==> exists k :: k in providers && providers[k] == c && c.enabled
      ensures |enabled| == |EnabledNames(providers)|
      ensures KeyedByName(providers) ==> forall i, j :: 0 <= i < j < |enabled| ==> enabled[i] != enabled[j]
      ensures SortedByPriority(enabled)
    {
      var list;
      list, names := CollectEnabled();
      enabled := SortByPriority(list);
      EnabledMembers(providers, names, enabled);
      EnabledCount(providers, names, enabled);
      if KeyedByName(providers) {
        EnabledOnce(providers, names, enabled);
      }
    }

    /** The collecting loop of `GetEnabledProviders`: each enabled
        configuration once, in the order the keys are visited. */
    method CollectEnabled() returns (list: seq<ProviderConfig>, ghost names: seq<string>)
      ensures NoDuplicates(names)
      ensures forall i :: 0 <= i < |names| ==> names[i] in providers
      ensures (set n | n in names) == EnabledNames(providers)
      ensures list == Lookup(providers, names)
    {
      list := [];
      names := [];
      var remaining := providers.Keys;
      while remaining != {}
        invariant remaining <= providers.Keys
        invariant Visited(EnabledNames(providers), remaining, names)
        invariant list == Lookup(providers, names)
        decreases remaining
      {
        var k :| k in remaining;
        if providers[k].enabled {
          VisitKeep(EnabledNames(providers), remaining, names, k);
          list := list + [providers[k]];
          names := names + [k];
        } else {
          VisitSkip(EnabledNames(providers), remaining, names, k);
        }
        remaining := remaining - {k};
      }
      VisitedAll(EnabledNames(providers), names);
    }

    /** `GetMetadata`: nothing for an unknown name. */
    function GetMetadata(name: string): (r: Option<ProviderMetadata>)
      reads this
      ensures r.None? <==> name !in providers
      ensures r.Some? ==> r.value == Metadata(name, providers[name])
    {
      match GetProvider(name)
      case None => None
      case Some(config) => Some(Metadata(name, config))
    }

    /** `GetAllMetadata`: one entry per registered name, in the unspecified
        order of the map visit (ghost `names`). */
    method GetAllMetadata() returns (metadata: seq<ProviderMetadata>, ghost names: seq<string>)
      ensures NoDuplicates(names) && (set n | n in names) == providers.Keys
      ensures |metadata| == |names|
      ensures forall i :: 0 <= i < |names| ==>
        names[i] in providers && metadata[i] == Metadata(names[i], providers[names[i]])
      ensures |metadata| == |providers|
      ensures forall k :: k in providers ==> Metadata(k, providers[k]) in metadata
    {
      metadata := [];
      names := [];
      var remaining := providers.Keys;
      while remaining != {}
        invariant remaining <= providers.Keys
        invariant Visited(providers.Keys, remaining, names)
        invariant metadata == MetadataList(providers, names)
        decreases remaining
      {
        var k :| k in remaining;
        var meta := GetMetadata(k);
        if meta.Some? {
          VisitKeep(providers.Keys, remaining, names, k);
          metadata := metadata + [meta.value];
          names := names + [k];
        }
        remaining := remaining - {k};
      }
      VisitedAll(providers.Keys, names);
      DistinctCard(names);
      forall k | k in providers ensures Metadata(k, providers[k]) in metadata {
        assert k in (set n | n in names);
        var i :| 0 <= i < |names| && names[i] == k;
        assert metadata[i] == Metadata(k, providers[k]);
      }
    }
  }

  /** The `sort.Slice` call: the slice reordered by non-decreasing
      priority. */
  method SortByPriority(list: seq<ProviderConfig>) returns (sorted: seq<ProviderConfig>)
    ensures multiset(sorted) == multiset(list)
    ensures SortedByPriority(sorted)
  {
    var a := new ProviderConfig[|list|](i requires 0 <= i < |list| => list[i]);
    assert a[..] == list;
    ExchangeSort(a, (c: ProviderConfig) => c.priority as real);
    sorted := a[..];
  }

  /** The metadata of the configurations stored under `names`, in that
      order. */
  function MetadataList(m: map<string, ProviderConfig>, names: seq<string>): (ms: seq<ProviderMetadata>)
    requires forall i :: 0 <= i < |names| ==> names[i] in m
    ensures |ms| == |names| && forall i :: 0 <= i < |names| ==> ms[i] == Metadata(names[i], m[names[i]])
  {
    if names == [] then [] else MetadataList(m, names[..|names| - 1]) + [Metadata(names[|names| - 1], m[names[|names| - 1]])]
  }

  /** The loop over a map so far: `names` lists, once each, the keys of
      interest that are no longer `remaining`. */
  ghost predicate Visited(keys: set<string>, remaining: set<string>, names: seq<string>) {
    && NoDuplicates(names)
    && (forall i :: 0 <= i < |names| ==> names[i] in keys && names[i] !in remaining)
    && (forall n :: n in names <==> n in keys && n !in remaining)
  }

  lemma VisitKeep(keys: set<string>, remaining: set<string>, names: seq<string>, k: string)
    requires Visited(keys, remaining, names) && k in remaining && k in keys
    ensures Visited(keys, remaining - {k}, names + [k])
  {
    var t := names + [k];
    assert forall i :: 0 <= i < |names| ==> t[i] == names[i];
    forall n ensures n in t <==> n in keys && n !in remaining - {k} {
      assert n in t <==> n in names || n == k;
    }
  }

  lemma VisitSkip(keys: set<string>, remaining: set<string>, names: seq<string>, k: string)
    requires Visited(keys, remaining, names) && k in remaining && k !in keys
    ensures Visited(keys, remaining - {k}, names)
  {
  }

  lemma VisitedAll(keys: set<string>, names: seq<string>)
    requires Visited(keys, {}, names)
    ensures (set n | n in names) == keys
  {
  }

  /** The enabled list holds exactly the registered, enabled
      configurations. */
  lemma EnabledMembers(m: map<string, ProviderConfig>, names: seq<string>, enabled: seq<ProviderConfig>)
    requires forall i :: 0 <= i < |names| ==> names[i] in m
    requires (set n | n in names) == EnabledNames(m)
    requires multiset(enabled) == multiset(Lookup(m, names))
    ensures forall c :: c in enabled <==> exists k :: k in m && m[k] == c && c.enabled
  {
    var cs := Lookup(m, names);
    SameMembers(enabled, cs);
    NamesPointwise(m, names);
    forall c ensures c in cs <==> exists k :: k in m && m[k] == c && c.enabled {
      EnabledMember(m, names, cs, c);
    }
  }

  /** With every configuration under its own name, none is listed twice. */
  lemma EnabledOnce(m: map<string, ProviderConfig>, names: seq<string>, enabled: seq<ProviderConfig>)
    requires NoDuplicates(names) && KeyedByName(m)
    requires forall i :: 0 <= i < |names| ==> names[i] in m
    requires multiset(enabled) == multiset(Lookup(m, names))
    ensures forall i, j :: 0 <= i < j < |enabled| ==> enabled[i] != enabled[j]
  {
    KeyedDistinct(m, names);
    forall i, j | 0 <= i < j < |enabled| ensures enabled[i] != enabled[j] {
      DistinctElements(enabled, i, j);
    }
  }

  lemma NamesPointwise(m: map<string, ProviderConfig>, names: seq<string>)
    requires (set n | n in names) == EnabledNames(m)
    ensures forall n :: n in names <==> n in m && m[n].enabled
  {
    forall n ensures n in names <==> n in m && m[n].enabled {
      assert n in names <==> n in (set x | x in names);
      assert n in EnabledNames(m) <==> n in m && m[n].enabled;
    }
  }

  lemma EnabledMember(m: map<string, ProviderConfig>, names: seq<string>, cs: seq<ProviderConfig>, c: ProviderConfig)
    requires forall n :: n in names <==> n in m && m[n].enabled
    requires |cs| == |names| && forall i :: 0 <= i < |names| ==> names[i] in m && cs[i] == m[names[i]]
    ensures c in cs <==> exists k :: k in m && m[k] == c && c.enabled
  {
    if c in cs {
      var i :| 0 <= i < |cs| && cs[i] == c;
      assert names[i] in names;
    }
    if exists k :: k in m && m[k] == c && c.enabled {
      var k :| k in m && m[k] == c && c.enabled;
      var i :| 0 <= i < |names| && names[i] == k;
    }
  }

  lemma EnabledCount(m: map<string, ProviderConfig>, names: seq<string>, enabled: seq<ProviderConfig>)
    requires NoDuplicates(names)
    requires forall i :: 0 <= i < |names| ==> names[i] in m
    requires (set n | n in names) == EnabledNames(m)
    requires multiset(enabled) == multiset(Lookup(m, names))
    ensures |enabled| == |EnabledNames(m)|
  {
    var cs := Lookup(m, names);
    assert |enabled| == |multiset(enabled)| == |multiset(cs)| == |cs|;
    DistinctCard(names);
  }

  /** A list without duplicates has as many elements as its set. */
  lemma {:induction false} DistinctCard(names: seq<string>)
    requires NoDuplicates(names)
    ensures |set n | n in names| == |names|
  {
    if names != [] {
      var init := names[..|names| - 1];
      var last := names[|names| - 1];
      assert NoDuplicates(init);
      DistinctCard(init);
      assert (set n | n in names) == (set n | n in init) + {last};
      assert last !in (set n | n in init);
    }
  }

  /** Configurations looked up under distinct names are distinct when each
      is stored under its own name. */
  lemma KeyedDistinct(m: map<string, ProviderConfig>, names: seq<string>)
    requires NoDuplicates(names) && KeyedByName(m)
    requires forall i :: 0 <= i < |names| ==> names[i] in m
    ensures forall x :: multiset(Lookup(m, names))[x] <= 1
  {
    var cs := Lookup(m, names);
    KeyedDistinctSeq(m, names);
    DistinctCountOne(cs);
  }

  lemma KeyedDistinctSeq(m: map<string, ProviderConfig>, names: seq<string>)
    requires NoDuplicates(names) && KeyedByName(m)
    requires forall i :: 0 <= i < |names| ==> names[i] in m
    ensures forall i, j :: 0 <= i < j < |names| ==> Lookup(m, names)[i] != Lookup(m, names)[j]
  {
    var cs := Lookup(m, names);
    forall i, j | 0 <= i < j < |names| ensures cs[i] != cs[j] {
      assert cs[i].name == names[i] && cs[j].name == names[j];
    }
  }

  /** `RegisterProvider` keeps every configuration under its own name. */
  lemma RegisterKeepsKeyed(m: map<string, ProviderConfig>, config: ProviderConfig)
    requires KeyedByName(m)
    ensures KeyedByName(m[config.name := config])
  {
  }

  /** Registering twice under one name keeps only the second. */
  lemma RegisterReplaces(m: map<string, ProviderConfig>, c1: ProviderConfig, c2: ProviderConfig)
    requires c1.name == c2.name
    ensures m[c1.name := c1][c2.name := c2] == m[c2.name := c2]
  {
  }

  /** For the four known providers whether a key is required does not
      depend on the configuration; for any other name it is whether the
      configuration carries a key. */
  lemma RequiresKeyRule(name: string, config: ProviderConfig)
    ensures Metadata(name, config).requiresKey ==
      if name == "brave" then true
      else if name in ["duckduckgo", "wikipedia", "personal"] then false
      else config.apiKey != ""
  {
  }

  /** `DefaultProviderConfigs`. */
  function DefaultProviderConfigs(): map<string, ProviderConfig> {
    map[
      "brave" := ProviderConfig("brave", "", true, 1, 10, 20, RateLimit(60, 66, 5)),
      "duckduckgo" := ProviderConfig("duckduckgo", "", false, 2, 10, 20, RateLimit(100, 10000, 10)),
      "wikipedia" := ProviderConfig("wikipedia", "", false, 3, 10, 10, RateLimit(60, 10000, 5)),
      "personal" := ProviderConfig("personal", "", false, 0, 5, 50, RateLimit(0, 0, 0))
    ]
  }

  /** Four entries, each under its own name; only Brave is enabled; and
      personal < brave < duckduckgo < wikipedia by priority. */
  lemma DefaultsShape()
    ensures var d := DefaultProviderConfigs();
      && d.Keys == {"brave", "duckduckgo", "wikipedia", "personal"}
      && |d| == 4
      && KeyedByName(d)
      && EnabledNames(d) == {"brave"}
      && d["personal"].priority < d["brave"].priority < d["duckduckgo"].priority < d["wikipedia"].priority
  {
    var d := DefaultProviderConfigs();
    assert d.Keys == {"brave", "duckduckgo", "wikipedia", "personal"};
    assert "brave" != "duckduckgo" && "brave" != "wikipedia" && "brave" != "personal";
  }
}

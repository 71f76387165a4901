/** The `Result` value that every provider of package `search` produces and
    the aggregator merges (its definition is not part of this model; its
    fields are the ones the providers fill in). Relevance is only ever
    compared, so it is an exact `real`. */
module SearchTypes {
  import opened Sorting

  datatype Result = Result(title: string, url: string, description: string, relevance: real)

  /** The URLs occurring in a result list. */
  function Urls(s: seq<Result>): set<string> {
    set i | 0 <= i < |s| :: s[i].url
  }

  predicate DistinctUrls(s: seq<Result>) {
    forall i, j :: 0 <= i < j < |s| ==> s[i].url != s[j].url
  }

  /** Non-increasing relevance from first to last. */
  predicate SortedByRelevance(s: seq<Result>) {
    forall i, j :: 0 <= i < j < |s| ==> s[i].relevance >= s[j].relevance
  }

  lemma DistinctUrlsCountOne(a: seq<Result>)
    requires DistinctUrls(a)
    ensures forall x :: multiset(a)[x] <= 1
  {
    DistinctCountOne(a);
  }

  /** Reordering keeps URLs distinct. */
  lemma DistinctUrlsPermutation(a: seq<Result>, b: seq<Result>)
    requires multiset(a) == multiset(b) && DistinctUrls(a)
    ensures DistinctUrls(b)
  {
    DistinctUrlsCountOne(a);
    forall i, j | 0 <= i < j < |b| ensures b[i].url != b[j].url {
      DistinctElements(b, i, j);
      assert b[i] in multiset(b) && b[j] in multiset(b);
      var p :| 0 <= p < |a| && a[p] == b[i];
      var q :| 0 <= q < |a| && a[q] == b[j];
      if p < q {
        assert a[p].url != a[q].url;
      } else {
        assert a[q].url != a[p].url;
      }
    }
  }
}

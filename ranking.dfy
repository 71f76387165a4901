/** `Rank` of the older `services` package: every result's score becomes
    the byte length of its title, written into the caller's slice. */
module Ranking {

  /** `models.SearchResult` of the older API. The score is a Go `float64`
      that only ever holds a length, so it is exact here. */
  datatype ScoredResult = ScoredResult(source: string, title: string, url: string, snippet: string, score: real)

  /** One result with its score set. */
  function ScoreOne(r: ScoredResult): ScoredResult {
    r.(score := |r.title| as real)
  }

  /** The scored list. */
  function Scored(s: seq<ScoredResult>): seq<ScoredResult> {
    if s == [] then [] else [ScoreOne(s[0])] + Scored(s[1..])
  }

  /** `Rank`: the loop updates the argument in place and hands the same
      array back. */
  method Rank(results: array<ScoredResult>) returns (ranked: array<ScoredResult>)
    modifies results
    ensures ranked == results
    ensures results[..] == Scored(old(results[..]))
  {
    for i := 0 to results.Length
      invariant results[..i] == Scored(old(results[..i]))
      invariant results[i..] == old(results[i..])
    {
      ScoredConcat(old(results[..i]), [old(results[i])]);
      assert old(results[..i + 1]) == old(results[..i]) + [old(results[i])];
      results[i] := results[i].(score := |results[i].title| as real);
      assert results[..i + 1] == results[..i] + [results[i]];
    }
    assert results[..] == results[..results.Length];
    assert old(results[..]) == old(results[..results.Length]);
    ranked := results;
  }

  /** Same length, same order; only the score changes, and it becomes the
      title's length. */
  lemma {:induction false} ScoredSpec(s: seq<ScoredResult>)
    ensures |Scored(s)| == |s|
    ensures forall i :: 0 <= i < |s| ==>
      && Scored(s)[i].source == s[i].source && Scored(s)[i].title == s[i].title
      && Scored(s)[i].url == s[i].url && Scored(s)[i].snippet == s[i].snippet
      && Scored(s)[i].score == |s[i].title| as real
  {
    if s != [] {
      ScoredSpec(s[1..]);
      assert forall i :: 1 <= i < |s| ==> Scored(s)[i] == Scored(s[1..])[i - 1];
    }
  }

  lemma {:induction false} ScoredConcat(a: seq<ScoredResult>, b: seq<ScoredResult>)
    ensures Scored(a + b) == Scored(a) + Scored(b)
  {
    if a != [] {
      ScoredConcat(a[1..], b);
      assert (a + b)[1..] == a[1..] + b;
    } else {
      assert a + b == b;
    }
  }

  /** Ranking twice is ranking once. */
  lemma {:induction false} ScoredIdempotent(s: seq<ScoredResult>)
    ensures Scored(Scored(s)) == Scored(s)
  {
    if s != [] {
      ScoredIdempotent(s[1..]);
      assert Scored(s)[1..] == Scored(s[1..]);
    }
  }
}

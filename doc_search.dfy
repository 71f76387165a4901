/** `search_documents` of the Python document service: the entries of a
    user's index whose content contains the query, ignoring case. Reading
    `index.json` is outside the model; the index comes in as a value, absent
    when the file does not exist. */
module DocSearch {
  import opened Wrappers
  import opened Text

  /** An index entry as `index_document` writes it. */
  datatype Doc = Doc(file: string, content: string)

  /** `str.lower` on ASCII letters. */
  function Lower(s: string): (r: string)
    ensures |r| == |s|
    ensures forall i :: 0 <= i < |s| ==> r[i] == LowerChar(s[i])
  {
    if s == [] then [] else [LowerChar(s[0])] + Lower(s[1..])
  }

  function LowerChar(c: char): char {
    if 'A' <= c <= 'Z' then (c as int - 'A' as int + 'a' as int) as char else c
  }

  /** Python's `sub in s`. */
  predicate Contains(s: string, sub: string) {
    exists i :: 0 <= i <= |s| - |sub| && OccursAt(s, sub, i)
  }

  predicate Matches(d: Doc, query: string) {
    Contains(Lower(d.content), Lower(query))
  }

  /** The list comprehension. */
  function Filter(docs: seq<Doc>, query: string): seq<Doc> {
    if docs == [] then []
    else Filter(docs[..|docs| - 1], query) + (if Matches(docs[|docs| - 1], query) then [docs[|docs| - 1]] else [])
  }

  /** `search_documents`: nothing when there is no index. */
  function SearchDocuments(index: Option<seq<Doc>>, query: string): (r: seq<Doc>)
    ensures index.None? ==> r == []
  {
    match index
    case None => []
    case Some(docs) => Filter(docs, query)
  }

  /** Soundness and completeness: every matching entry is returned exactly
      as often as it occurs in the index, and nothing else. */
  lemma {:induction false} FilterCount(docs: seq<Doc>, query: string, d: Doc)
    ensures multiset(Filter(docs, query))[d] == if Matches(d, query) then multiset(docs)[d] else 0
  {
    if docs != [] {
      var init, x := docs[..|docs| - 1], docs[|docs| - 1];
      FilterCount(init, query, d);
      assert docs == init + [x];
      assert multiset(docs)[d] == multiset(init)[d] + multiset([x])[d];
      if Matches(x, query) {
        assert Filter(docs, query) == Filter(init, query) + [x];
        assert multiset(Filter(docs, query))[d] == multiset(Filter(init, query))[d] + multiset([x])[d];
      } else {
        assert Filter(docs, query) == Filter(init, query);
      }
    }
  }

  /** Every returned entry matches. */
  lemma FilterSound(docs: seq<Doc>, query: string)
    ensures forall d :: d in Filter(docs, query) ==> Matches(d, query) && d in docs
  {
    forall d | d in Filter(docs, query) ensures Matches(d, query) && d in docs {
      FilterCount(docs, query, d);
      assert d in multiset(Filter(docs, query));
    }
  }

  /** Index order is kept: filtering distributes over concatenation. */
  lemma {:induction false} FilterConcat(a: seq<Doc>, b: seq<Doc>, query: string)
    ensures Filter(a + b, query) == Filter(a, query) + Filter(b, query)
    decreases |b|
  {
    if b == [] {
      assert a + b == a;
    } else {
      FilterConcat(a, b[..|b| - 1], query);
      assert (a + b)[..|a + b| - 1] == a + b[..|b| - 1];
      assert (a + b)[|a + b| - 1] == b[|b| - 1];
    }
  }

  /** The empty query matches every entry. */
  lemma {:induction false} EmptyQueryReturnsAll(docs: seq<Doc>)
    ensures Filter(docs, "") == docs
  {
    if docs != [] {
      EmptyQueryReturnsAll(docs[..|docs| - 1]);
      assert OccursAt(Lower(docs[|docs| - 1].content), Lower(""), 0);
      assert docs == docs[..|docs| - 1] + [docs[|docs| - 1]];
    }
  }

  lemma LowerIdempotent(s: string)
    ensures Lower(Lower(s)) == Lower(s)
  {
  }

  /** The case of the query does not matter. */
  lemma {:induction false} QueryCaseIgnored(docs: seq<Doc>, query: string)
    ensures Filter(docs, Lower(query)) == Filter(docs, query)
  {
    LowerIdempotent(query);
    if docs != [] {
      QueryCaseIgnored(docs[..|docs| - 1], query);
    }
  }
}

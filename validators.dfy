/** The request checks of package `utils`: query validation and
    sanitising, and the clamp on the number of results. */
module Validators {
  import opened Text

  const MaxQueryLength: int := 500
  const DefaultMaxResults: int := 10
  const MaxResultsCap: int := 50

  /** The error values. `ErrInvalidChars` is declared but never returned. */
  datatype QueryError = ErrQueryEmpty | ErrQueryTooLong | ErrInvalidChars

  datatype Validated = Valid(query: string) | Invalid(err: QueryError)

  /** `SanitizeInput`: tags, then the literal script tags, then NUL bytes are
      deleted, and the surrounding whitespace is trimmed. */
  function SanitizeInput(input: string): (r: string)
    ensures '\0' !in r
    ensures Trimmed(r)
    ensures |r| <= |input|
    ensures NoTag(r)
  {
    var s1 := StripTags(input);
    var s2 := ReplaceAll(s1, "<script>", "");
    var s3 := ReplaceAll(s2, "</script>", "");
    var s4 := ReplaceAll(s3, "\0", "");
    StripTagsShrinks(input);
    ReplaceAllShrinks(s1, "<script>", "");
    ReplaceAllShrinks(s2, "</script>", "");
    ReplaceAllShrinks(s3, "\0", "");
    DeleteCharRemovesAll(s3, '\0');
    StripTagsNoTag(input);
    DeleteAllNoTag(s1, "<script>");
    DeleteAllNoTag(s2, "</script>");
    DeleteAllNoTag(s3, "\0");
    TrimSpaceNoTag(s4);
    TrimSpace(s4)
  }

  /** `ValidateSearchQuery`: the length limit applies to the trimmed query
      before it is sanitised. */
  function ValidateSearchQuery(query: string): (r: Validated)
    ensures r == Invalid(ErrQueryEmpty) <==> TrimSpace(query) == ""
    ensures r == Invalid(ErrQueryTooLong) <==> |TrimSpace(query)| > MaxQueryLength
    ensures r.Invalid? ==> r.err != ErrInvalidChars
    ensures r.Valid? ==> r.query == SanitizeInput(TrimSpace(query)) && |r.query| <= MaxQueryLength
  {
    var trimmed := TrimSpace(query);
    if |trimmed| == 0 then Invalid(ErrQueryEmpty)
    else if |trimmed| > MaxQueryLength then Invalid(ErrQueryTooLong)
    else Valid(SanitizeInput(trimmed))
  }

  /** `ValidateMaxResults`: 10 when not positive, at most 50. */
  function ValidateMaxResults(maxResults: int): (r: int)
    ensures 1 <= r <= MaxResultsCap
    ensures 1 <= maxResults <= MaxResultsCap ==> r == maxResults
    ensures maxResults <= 0 ==> r == DefaultMaxResults
    ensures maxResults > MaxResultsCap ==> r == MaxResultsCap
  {
    if maxResults <= 0 then DefaultMaxResults
    else if maxResults > MaxResultsCap then MaxResultsCap
    else maxResults
  }

  lemma ValidateMaxResultsIdempotent(n: int)
    ensures ValidateMaxResults(ValidateMaxResults(n)) == ValidateMaxResults(n)
  {
  }

  /** Text with no `<` before a later `>` holds no pattern that starts with
      `<` and ends with `>`. */
  lemma NoTagNoMatch(s: string, pat: string)
    requires NoTag(s) && |pat| >= 2 && pat[0] == '<' && pat[|pat| - 1] == '>'
    ensures forall i :: 0 <= i <= |s| - |pat| ==> !OccursAt(s, pat, i)
  {
    forall i | 0 <= i <= |s| - |pat| ensures !OccursAt(s, pat, i) {
      if s[i] == '<' {
        assert s[i + |pat| - 1] != '>';
        assert s[i..i + |pat|][|pat| - 1] == s[i + |pat| - 1];
      } else {
        assert s[i..i + |pat|][0] == s[i];
      }
    }
  }

  /** After the tags are gone there is no `<script>` or `</script>` left to
      delete: those two removals never change anything. */
  lemma ScriptRemovalsNoOp(input: string)
    ensures var s1 := StripTags(input);
      ReplaceAll(s1, "<script>", "") == s1 && ReplaceAll(s1, "</script>", "") == s1
  {
    var s1 := StripTags(input);
    StripTagsNoTag(input);
    NoTagNoMatch(s1, "<script>");
    ReplaceAllNoMatch(s1, "<script>", "");
    NoTagNoMatch(s1, "</script>");
    ReplaceAllNoMatch(s1, "</script>", "");
  }

  /** A query that is nothing but a tag passes validation and comes out
      empty. */
  lemma TagOnlyQuery()
    ensures ValidateSearchQuery("<b>") == Valid("")
  {
    assert Trimmed("<b>");
    assert "<b>"[0] == '<' && "<b>"[2] == '>';
    assert "<b>"[IndexOf("<b>", '>') + 1..] == [];
    assert StripTags("<b>") == [];
    assert ReplaceAll([], "<script>", "") == [];
  }

  /** A query that is already clean, and trimmed, is returned as it is. */
  lemma SanitizePlain(input: string)
    requires '<' !in input && '\0' !in input && Trimmed(input)
    ensures SanitizeInput(input) == input
  {
    StripTagsNoOpen(input);
    ScriptRemovalsNoOp(input);
    forall i | 0 <= i <= |input| - 1 ensures !OccursAt(input, "\0", i) {
      assert input[i] in input;
      assert input[i..i + 1][0] == input[i];
    }
    ReplaceAllNoMatch(input, "\0", "");
  }
}

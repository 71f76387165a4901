/** String operations of Go's `strings` package and of the `<[^>]*>` tag
    regular expression, as the search backend uses them. A Go string is
    modelled as a `string` in which every char stands for one byte. */
module Text {

  /** The ASCII bytes that Go's `strings.TrimSpace` removes. */
  predicate IsSpace(c: char) {
    c == ' ' || c == '\t' || c == '\n' || c == '\r' || c == '\U{0B}' || c == '\U{0C}'
  }

  /** True of a string with no whitespace at either end. */
  predicate Trimmed(s: string) {
    s == [] || (!IsSpace(s[0]) && !IsSpace(s[|s| - 1]))
  }

  /** Every char stands for a single byte. */
  predicate IsBytes(s: string) {
    forall i :: 0 <= i < |s| ==> s[i] as int < 256
  }

  predicate HasPrefix(s: string, p: string) {
    |p| <= |s| && s[..|p|] == p
  }

  /** `pat` occurs in `s` starting at index `i`. */
  predicate OccursAt(s: string, pat: string, i: int) {
    0 <= i && i + |pat| <= |s| && s[i..i + |pat|] == pat
  }

  function TrimLeft(s: string): (r: string)
    ensures |r| <= |s| && r == s[|s| - |r|..]
    ensures r == [] || !IsSpace(r[0])
    ensures forall k :: 0 <= k < |s| - |r| ==> IsSpace(s[k])
  {
    if s != [] && IsSpace(s[0]) then TrimLeft(s[1..]) else s
  }

  function TrimRight(s: string): (r: string)
    ensures |r| <= |s| && r == s[..|r|]
    ensures r == [] || !IsSpace(r[|r| - 1])
    ensures forall k :: |r| <= k < |s| ==> IsSpace(s[k])
  {
    if s != [] && IsSpace(s[|s| - 1]) then TrimRight(s[..|s| - 1]) else s
  }

  /** Go's `strings.TrimSpace` on ASCII whitespace: the infix of `s` left
      after removing the whitespace at both ends. */
  function TrimSpace(s: string): (r: string)
    ensures Trimmed(r)
    ensures |r| <= |s|
    ensures forall c :: c in r ==> c in s
    ensures Trimmed(s) ==> r == s
  {
    var l := TrimLeft(s);
    var r := TrimRight(l);
    assert r != [] ==> r[0] == l[0];
    assert forall c :: c in r ==> c in l;
    r
  }

  /** Go's `strings.ReplaceAll` for a non-empty pattern: a left-to-right scan
      that replaces every leftmost non-overlapping occurrence of `pat`. */
  function ReplaceAll(s: string, pat: string, rep: string): (r: string)
    requires pat != []
    decreases |s|
  {
    if |s| < |pat| then s
    else if s[..|pat|] == pat then rep + ReplaceAll(s[|pat|..], pat, rep)
    else [s[0]] + ReplaceAll(s[1..], pat, rep)
  }

  /** A string in which `pat` never occurs is left as it is. */
  lemma {:induction false} ReplaceAllNoMatch(s: string, pat: string, rep: string)
    requires pat != []
    requires forall i :: 0 <= i <= |s| - |pat| ==> !OccursAt(s, pat, i)
    ensures ReplaceAll(s, pat, rep) == s
    decreases |s|
  {
    if |s| >= |pat| {
      assert !OccursAt(s, pat, 0);
      forall i | 0 <= i <= |s[1..]| - |pat| ensures !OccursAt(s[1..], pat, i) {
        assert !OccursAt(s, pat, i + 1);
        assert s[1..][i..i + |pat|] == s[i + 1..i + 1 + |pat|];
      }
      ReplaceAllNoMatch(s[1..], pat, rep);
    }
  }

  /** Replacement only brings in chars of the input or of the replacement. */
  lemma {:induction false} ReplaceAllChars(s: string, pat: string, rep: string)
    requires pat != []
    ensures forall c :: c in ReplaceAll(s, pat, rep) ==> c in s || c in rep
    decreases |s|
  {
    if |s| >= |pat| {
      if s[..|pat|] == pat {
        ReplaceAllChars(s[|pat|..], pat, rep);
        assert forall c :: c in s[|pat|..] ==> c in s;
      } else {
        ReplaceAllChars(s[1..], pat, rep);
        assert forall c :: c in s[1..] ==> c in s;
      }
    }
  }

  /** Replacing by something no longer than the pattern never lengthens. */
  lemma {:induction false} ReplaceAllShrinks(s: string, pat: string, rep: string)
    requires pat != [] && |rep| <= |pat|
    ensures |ReplaceAll(s, pat, rep)| <= |s|
    decreases |s|
  {
    if |s| >= |pat| {
      if s[..|pat|] == pat {
        ReplaceAllShrinks(s[|pat|..], pat, rep);
      } else {
        ReplaceAllShrinks(s[1..], pat, rep);
      }
    }
  }

  /** Replacement keeps every char a byte when the replacement's are. */
  lemma ReplaceAllBytes(s: string, pat: string, rep: string)
    requires pat != [] && IsBytes(s) && IsBytes(rep)
    ensures IsBytes(ReplaceAll(s, pat, rep))
  {
    var r := ReplaceAll(s, pat, rep);
    ReplaceAllChars(s, pat, rep);
    forall i | 0 <= i < |r| ensures r[i] as int < 256 {
      assert r[i] in r;
      if r[i] in s {
        var k :| 0 <= k < |s| && s[k] == r[i];
      } else {
        var k :| 0 <= k < |rep| && rep[k] == r[i];
      }
    }
  }

  /** Deleting a one-char pattern removes every occurrence of that char. */
  lemma {:induction false} DeleteCharRemovesAll(s: string, c: char)
    ensures c !in ReplaceAll(s, [c], "")
    decreases |s|
  {
    if |s| >= 1 {
      DeleteCharRemovesAll(s[1..], c);
      if s[..1] != [c] {
        assert s[0] != c;
      }
    }
  }

  /** Index of the first occurrence of `c`. */
  function IndexOf(s: string, c: char): (k: nat)
    requires c in s
    ensures k < |s| && s[k] == c && c !in s[..k]
  {
    if s[0] == c then 0 else 1 + IndexOf(s[1..], c)
  }

  /** Go's `regexp.MustCompile("<[^>]*>").ReplaceAllString(s, "")`: at each
      position, a `<` that has a `>` somewhere after it starts a match that
      ends at the first such `>`; the match is deleted and the scan goes on
      after it. Any other char is kept. */
  function StripTags(s: string): (r: string)
    decreases |s|
  {
    if s == [] then []
    else if s[0] == '<' && '>' in s then StripTags(s[IndexOf(s, '>') + 1..])
    else [s[0]] + StripTags(s[1..])
  }

  /** Deleting tags never lengthens. */
  lemma {:induction false} StripTagsShrinks(s: string)
    ensures |StripTags(s)| <= |s|
    decreases |s|
  {
    if s != [] {
      if s[0] == '<' && '>' in s {
        StripTagsShrinks(s[IndexOf(s, '>') + 1..]);
      } else {
        StripTagsShrinks(s[1..]);
      }
    }
  }

  /** No `<` is followed, anywhere later, by a `>`: nothing the tag
      expression could match. */
  predicate NoTag(s: string) {
    forall i, j :: 0 <= i < j < |s| && s[i] == '<' ==> s[j] != '>'
  }

  lemma {:induction false} StripTagsChars(s: string)
    ensures forall c :: c in StripTags(s) ==> c in s
    decreases |s|
  {
    if s != [] {
      if s[0] == '<' && '>' in s {
        var k := IndexOf(s, '>');
        StripTagsChars(s[k + 1..]);
        assert forall c :: c in s[k + 1..] ==> c in s;
      } else {
        StripTagsChars(s[1..]);
        assert forall c :: c in s[1..] ==> c in s;
      }
    }
  }

  /** Tag stripping leaves nothing that looks like a tag. */
  lemma {:induction false} StripTagsNoTag(s: string)
    ensures NoTag(StripTags(s))
    decreases |s|
  {
    if s != [] {
      if s[0] == '<' && '>' in s {
        StripTagsNoTag(s[IndexOf(s, '>') + 1..]);
      } else {
        var tail := StripTags(s[1..]);
        StripTagsNoTag(s[1..]);
        StripTagsChars(s[1..]);
        var r := [s[0]] + tail;
        assert r == StripTags(s);
        forall i, j | 0 <= i < j < |r| && r[i] == '<' ensures r[j] != '>' {
          if i == 0 {
            assert r[j] == tail[j - 1];
            assert r[j] in s[1..] ==> r[j] != '>';
          } else {
            assert r[i] == tail[i - 1] && r[j] == tail[j - 1];
          }
        }
      }
    }
  }

  /** A string without tags is its own tag-stripped form; in particular
      stripping is idempotent. */
  lemma {:induction false} StripTagsNoTagIdentity(s: string)
    requires NoTag(s)
    ensures StripTags(s) == s
    decreases |s|
  {
    if s != [] {
      assert NoTag(s[1..]) by {
        forall i, j | 0 <= i < j < |s[1..]| && s[1..][i] == '<' ensures s[1..][j] != '>' {
          assert s[i + 1] == '<';
        }
      }
      StripTagsNoTagIdentity(s[1..]);
    }
  }

  lemma StripTagsIdempotent(s: string)
    ensures StripTags(StripTags(s)) == StripTags(s)
  {
    StripTagsNoTag(s);
    StripTagsNoTagIdentity(StripTags(s));
  }

  /** A `<` that no `>` follows survives stripping, and so does everything
      after it. */
  lemma {:induction false} StripTagsKeepsUnclosed(a: string, b: string)
    requires '>' !in b
    ensures StripTags(a + ['<'] + b) == StripTags(a) + ['<'] + b
    decreases |a|
  {
    var t := ['<'] + b;
    assert NoTag(t) by {
      forall i, j | 0 <= i < j < |t| && t[i] == '<' ensures t[j] != '>' {
        assert t[j] == b[j - 1];
      }
    }
    StripTagsNoTagIdentity(t);
    StripTagsSplit(a, t);
    assert a + ['<'] + b == a + t;
  }

  /** When the rest has no `>`, no match can reach into it. */
  lemma {:induction false} StripTagsSplit(a: string, t: string)
    requires NoTag(t)
    requires '>' !in t || '<' !in a
    ensures StripTags(a + t) == StripTags(a) + StripTags(t)
    decreases |a|
  {
    if a == [] {
      assert a + t == t;
    } else {
      var s := a + t;
      assert s[0] == a[0];
      if a[0] == '<' && '>' in s {
        var k := IndexOf(s, '>');
        if k < |a| {
          assert s[..k] == a[..k];
          assert '>' in a;
          assert IndexOf(a, '>') == k by { IndexOfPrefix(s, a, '>'); }
          assert s[k + 1..] == a[k + 1..] + t;
          NoOpenAfter(a, t);
          StripTagsSplit(a[k + 1..], t);
        } else {
          assert false;
        }
      } else {
        assert s[1..] == a[1..] + t;
        StripTagsSplitTail(a, t);
      }
    }
  }

  lemma StripTagsSplitTail(a: string, t: string)
    requires NoTag(t) && a != []
    requires '>' !in t || '<' !in a
    requires !(a[0] == '<' && '>' in a + t)
    ensures StripTags(a + t) == StripTags(a) + StripTags(t)
    decreases |a|, 0
  {
    var s := a + t;
    assert s[0] == a[0] && s[1..] == a[1..] + t;
    assert !(a[0] == '<' && '>' in a);
    assert '>' !in t || '<' !in a[1..] by {
      if '<' in a[1..] {
        var j :| 0 <= j < |a[1..]| && a[1..][j] == '<';
        assert a[j + 1] == '<';
      }
    }
    StripTagsSplit(a[1..], t);
  }

  lemma NoOpenAfter(a: string, t: string)
    requires '>' !in t || '<' !in a
    ensures forall k :: 0 <= k <= |a| ==> ('>' !in t || '<' !in a[k..])
  {
    forall k | 0 <= k <= |a| ensures '>' !in t || '<' !in a[k..] {
      if '<' in a[k..] {
        var j :| 0 <= j < |a[k..]| && a[k..][j] == '<';
        assert a[k + j] == '<';
      }
    }
  }

  lemma IndexOfPrefix(s: string, a: string, c: char)
    requires c in a && c in s && |a| <= |s| && s[..|a|] == a
    requires IndexOf(s, c) < |a|
    ensures IndexOf(a, c) == IndexOf(s, c)
  {
    var k := IndexOf(s, c);
    assert s[..k] == a[..k];
  }

  /** A string without `<` is left alone by tag stripping. */
  lemma {:induction false} StripTagsNoOpen(s: string)
    requires '<' !in s
    ensures StripTags(s) == s
    decreases |s|
  {
    if s != [] {
      StripTagsNoOpen(s[1..]);
    }
  }

  lemma NoTagSlice(s: string, i: int, j: int)
    requires NoTag(s) && 0 <= i <= j <= |s|
    ensures NoTag(s[i..j])
  {
    var t := s[i..j];
    forall p, q | 0 <= p < q < |t| && t[p] == '<' ensures t[q] != '>' {
      assert t[p] == s[i + p] && t[q] == s[i + q];
    }
  }

  /** Trimming keeps a tag-free string tag-free. */
  lemma TrimSpaceNoTag(s: string)
    requires NoTag(s)
    ensures NoTag(TrimSpace(s))
  {
    var l := TrimLeft(s);
    NoTagSlice(s, |s| - |l|, |s|);
    NoTagSlice(l, 0, |TrimRight(l)|);
  }

  /** Deleting every occurrence of a pattern keeps a tag-free string
      tag-free. */
  lemma {:induction false} DeleteAllNoTag(s: string, pat: string)
    requires pat != [] && NoTag(s)
    ensures NoTag(ReplaceAll(s, pat, ""))
    decreases |s|
  {
    if |s| >= |pat| {
      if s[..|pat|] == pat {
        NoTagSlice(s, |pat|, |s|);
        DeleteAllNoTag(s[|pat|..], pat);
        assert ReplaceAll(s, pat, "") == ReplaceAll(s[|pat|..], pat, "");
      } else {
        NoTagSlice(s, 1, |s|);
        DeleteAllNoTag(s[1..], pat);
        ReplaceAllChars(s[1..], pat, "");
        var tail := ReplaceAll(s[1..], pat, "");
        var r := [s[0]] + tail;
        forall i, j | 0 <= i < j < |r| && r[i] == '<' ensures r[j] != '>' {
          if i == 0 {
            assert r[j] == tail[j - 1] && r[j] in s[1..];
            var m :| 0 <= m < |s[1..]| && s[1..][m] == r[j];
            assert s[m + 1] == r[j];
          } else {
            assert r[i] == tail[i - 1] && r[j] == tail[j - 1];
          }
        }
      }
    }
  }
}

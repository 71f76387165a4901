/** `check_quota` of the Python document service: the sizes of the regular
    files directly inside a user's directory, plus the size of a new upload,
    must stay within 50 MiB. The directory listing comes in as a value. */
module DocQuota {

  const MaxQuota: int := 50 * 1024 * 1024

  /** One name of `os.listdir` with what `os.path.isfile` and
      `os.path.getsize` say about it. */
  datatype DirEntry = DirEntry(name: string, isFile: bool, size: nat)

  /** The generator summed by `sum`. */
  function TotalFileSize(entries: seq<DirEntry>): nat {
    if entries == [] then 0
    else
      var last := entries[|entries| - 1];
      TotalFileSize(entries[..|entries| - 1]) + (if last.isFile then last.size else 0)
  }

  /** `check_quota`. */
  predicate CheckQuota(entries: seq<DirEntry>, newSize: int) {
    TotalFileSize(entries) + newSize <= MaxQuota
  }

  /** The bound is inclusive: an upload that fills the quota exactly is
      accepted, one byte more is not. */
  lemma QuotaInclusive(entries: seq<DirEntry>)
    requires TotalFileSize(entries) <= MaxQuota
    ensures CheckQuota(entries, MaxQuota - TotalFileSize(entries))
    ensures !CheckQuota(entries, MaxQuota - TotalFileSize(entries) + 1)
  {
  }

  /** Accepting a size accepts every smaller one. */
  lemma QuotaMonotone(entries: seq<DirEntry>, n: int, m: int)
    requires CheckQuota(entries, n) && m <= n
    ensures CheckQuota(entries, m)
  {
  }

  /** The total of a concatenation is the sum of the totals. */
  lemma {:induction false} TotalConcat(a: seq<DirEntry>, b: seq<DirEntry>)
    ensures TotalFileSize(a + b) == TotalFileSize(a) + TotalFileSize(b)
    decreases |b|
  {
    if b == [] {
      assert a + b == a;
    } else {
      TotalConcat(a, b[..|b| - 1]);
      assert (a + b)[..|a + b| - 1] == a + b[..|b| - 1];
      assert (a + b)[|a + b| - 1] == b[|b| - 1];
    }
  }

  /** Entries that are not regular files (subdirectories, say) add nothing. */
  lemma NonFileIgnored(a: seq<DirEntry>, b: seq<DirEntry>, e: DirEntry)
    requires !e.isFile
    ensures TotalFileSize(a + [e] + b) == TotalFileSize(a + b)
  {
    TotalConcat(a + [e], b);
    TotalConcat(a, [e]);
    TotalConcat(a, b);
    assert TotalFileSize([e]) == 0 by {
      assert [e][..0] == [];
    }
  }

  /** The order `os.listdir` happens to return does not matter. */
  lemma {:induction false} TotalPermutation(a: seq<DirEntry>, b: seq<DirEntry>)
    requires multiset(a) == multiset(b)
    ensures TotalFileSize(a) == TotalFileSize(b)
    decreases |a|
  {
    if a != [] {
      var x := a[|a| - 1];
      var init := a[..|a| - 1];
      assert a == init + [x];
      assert x in multiset(b);
      var k :| 0 <= k < |b| && b[k] == x;
      var rest := b[..k] + b[k + 1..];
      RemoveOne(a, b, k);
      TotalPermutation(init, rest);
      TotalRemove(b, k);
    }
  }

  /** Taking the same element out of two permutations leaves permutations. */
  lemma RemoveOne(a: seq<DirEntry>, b: seq<DirEntry>, k: int)
    requires a != [] && multiset(a) == multiset(b)
    requires 0 <= k < |b| && b[k] == a[|a| - 1]
    ensures multiset(a[..|a| - 1]) == multiset(b[..k] + b[k + 1..])
  {
    var x := a[|a| - 1];
    assert a == a[..|a| - 1] + [x];
    assert b == b[..k] + [x] + b[k + 1..];
    assert multiset(b) == multiset(b[..k]) + multiset{x} + multiset(b[k + 1..]);
    assert multiset(b[..k] + b[k + 1..]) == multiset(b[..k]) + multiset(b[k + 1..]);
    assert multiset(a[..|a| - 1]) == multiset(a) - multiset{x};
  }

  /** The total without one entry, plus that entry's share. */
  lemma TotalRemove(b: seq<DirEntry>, k: int)
    requires 0 <= k < |b|
    ensures TotalFileSize(b) == TotalFileSize(b[..k] + b[k + 1..]) + (if b[k].isFile then b[k].size else 0)
  {
    var p, x, q := b[..k], b[k], b[k + 1..];
    assert b == (p + [x]) + q;
    TotalConcat(p + [x], q);
    assert (p + [x])[..|p + [x]| - 1] == p;
    TotalConcat(p, q);
  }
}

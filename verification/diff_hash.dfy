/**
 * `_compute_diff_hash`: the cache fingerprint of a diff. Lines that change
 * between otherwise identical diffs (`index ` and `@@` lines) are dropped,
 * the rest are stripped, blank ones dropped, and the survivors sorted and
 * joined before hashing. SHA-256 is a parameter; the fingerprint is the first
 * sixteen characters of its hex digest.
 */
module DiffHash {
  import opened Strings
  import opened Sorting

  const FingerprintLength: nat := 16

  /** Skipped lines are recognised before stripping, so an indented `index ` line is kept. */
  predicate Skipped(line: string)
  {
    StartsWith(line, "index ") || StartsWith(line, "@@")
  }

  predicate Kept(line: string)
  {
    !Skipped(line) && Strip(line) != []
  }

  /** The list the loop builds: the stripped form of every kept line, in order. */
  function KeptLines(lines: seq<string>): (r: seq<string>)
    ensures |r| <= |lines|
    ensures forall k :: 0 <= k < |r| ==> r[k] != []
  {
    if lines == [] then []
    else
      var last := lines[|lines| - 1];
      KeptLines(lines[..|lines| - 1]) + (if Kept(last) then [Strip(last)] else [])
  }

  /** The text that is hashed. */
  function Normalized(lines: seq<string>): string
  {
    Join(Sort(KeptLines(lines)), "\n")
  }

  function Normalize(diff: string): string
  {
    Normalized(SplitLines(diff))
  }

  /** `s[:n]` */
  function Prefix(s: string, n: nat): (r: string)
    ensures r <= s
    ensures |r| == if |s| <= n then |s| else n
  {
    if |s| <= n then s else s[..n]
  }

  /** `sha256(normalized).hexdigest()[:16]`, with the digest supplied as `sha`. */
  function Fingerprint(diff: string, sha: string -> string): (h: string)
    ensures |h| <= FingerprintLength
    ensures h <= sha(Normalize(diff))
    ensures |sha(Normalize(diff))| >= FingerprintLength ==> |h| == FingerprintLength
  {
    Prefix(sha(Normalize(diff)), FingerprintLength)
  }

  /** `_compute_diff_hash` with its append loop. */
  method ComputeDiffHash(diff: string, sha: string -> string) returns (h: string)
    ensures h == Fingerprint(diff, sha)
  {
    var all := SplitLines(diff);
    var lines: seq<string> := [];
    for i := 0 to |all|
      invariant lines == KeptLines(all[..i])
    {
      var line := all[i];
      assert all[..i + 1][..i] == all[..i];
      if !(StartsWith(line, "index ") || StartsWith(line, "@@")) {
        var stripped := Strip(line);
        if stripped != [] {
          lines := lines + [stripped];
        }
      }
    }
    assert all[..|all|] == all;
    var normalized := Join(Sort(lines), "\n");
    h := Prefix(sha(normalized), FingerprintLength);
  }

  // ---------------------------------------------------------------------
  // What the fingerprint does not see

  lemma {:induction false} KeptConcat(a: seq<string>, b: seq<string>)
    ensures KeptLines(a + b) == KeptLines(a) + KeptLines(b)
  {
    if b != [] {
      var c := b[..|b| - 1];
      KeptConcat(a, c);
      assert (a + b)[..|a + b| - 1] == a + c;
      assert (a + b)[|a + b| - 1] == b[|b| - 1];
    } else {
      assert a + b == a;
    }
  }

  /** Lines in another order keep the same lines, in another order. */
  lemma {:induction false} KeptPermutation(a: seq<string>, b: seq<string>)
    requires multiset(a) == multiset(b)
    ensures multiset(KeptLines(a)) == multiset(KeptLines(b))
    decreases |a|
  {
    if a != [] {
      var init, x := a[..|a| - 1], a[|a| - 1];
      assert a == init + [x];
      assert x in multiset(b);
      var i :| 0 <= i < |b| && b[i] == x;
      var left, right := b[..i], b[i + 1..];
      assert b == left + [x] + right;
      CancelMiddle(init, x, left, right);
      KeptPermutation(init, left + right);
      KeptConcat(init, [x]);
      KeptConcat(left, [x]);
      KeptConcat(left + [x], right);
      KeptConcat(left, right);
    } else {
      assert |b| == |multiset(b)| == 0;
    }
  }

  lemma CancelMiddle(init: seq<string>, x: string, left: seq<string>, right: seq<string>)
    requires multiset(init + [x]) == multiset(left + [x] + right)
    ensures multiset(init) == multiset(left + right)
  {
    calc {
      multiset(init);
      multiset(init + [x]) - multiset{x};
      multiset(left + [x] + right) - multiset{x};
      { assert multiset(left + [x] + right) == multiset(left) + multiset{x} + multiset(right); }
      multiset(left) + multiset(right);
      multiset(left + right);
    }
  }

  /** Reordering lines does not change the hashed text. */
  lemma NormalizedIgnoresOrder(a: seq<string>, b: seq<string>)
    requires multiset(a) == multiset(b)
    ensures Normalized(a) == Normalized(b)
  {
    KeptPermutation(a, b);
    SortIgnoresOrder(KeptLines(a), KeptLines(b));
  }

  /** A blank line, an `index ` line or an `@@` line anywhere does not change the hashed text. */
  lemma NormalizedIgnoresLine(a: seq<string>, x: string, b: seq<string>)
    requires !Kept(x)
    ensures Normalized(a + [x] + b) == Normalized(a + b)
  {
    KeptConcat(a + [x], b);
    KeptConcat(a, [x]);
    KeptConcat(a, b);
    assert KeptLines([x]) == [] by {
      assert [x][..0] == [];
    }
    assert KeptLines(a + [x]) == KeptLines(a) + [];
    assert KeptLines(a + [x] + b) == KeptLines(a + b);
  }

  /** Changing the whitespace around a line that is not skipped does not change the hashed text. */
  lemma NormalizedIgnoresPadding(a: seq<string>, x: string, y: string, b: seq<string>)
    requires !Skipped(x) && !Skipped(y) && Strip(x) == Strip(y)
    ensures Normalized(a + [x] + b) == Normalized(a + [y] + b)
  {
    KeptConcat(a + [x], b);
    KeptConcat(a, [x]);
    KeptConcat(a + [y], b);
    KeptConcat(a, [y]);
    assert KeptLines([x]) == KeptLines([y]) by {
      assert [x][..0] == [] && [y][..0] == [];
    }
  }

  /** A diff with an extra blank, `index ` or `@@` line has the fingerprint of the diff without it. */
  lemma FingerprintIgnoresLine(d1: string, d2: string, a: seq<string>, x: string, b: seq<string>, sha: string -> string)
    requires SplitLines(d1) == a + [x] + b && SplitLines(d2) == a + b
    requires !Kept(x)
    ensures Fingerprint(d1, sha) == Fingerprint(d2, sha)
  {
    NormalizedIgnoresLine(a, x, b);
  }

  /** Diffs that differ only in the whitespace around one kept line share a fingerprint. */
  lemma FingerprintIgnoresPadding(d1: string, d2: string, a: seq<string>, x: string, y: string, b: seq<string>, sha: string -> string)
    requires SplitLines(d1) == a + [x] + b && SplitLines(d2) == a + [y] + b
    requires !Skipped(x) && !Skipped(y) && Strip(x) == Strip(y)
    ensures Fingerprint(d1, sha) == Fingerprint(d2, sha)
  {
    NormalizedIgnoresPadding(a, x, y, b);
  }

  /** Diffs whose lines are the same up to order share a fingerprint. */
  lemma FingerprintIgnoresOrder(d1: string, d2: string, sha: string -> string)
    requires multiset(SplitLines(d1)) == multiset(SplitLines(d2))
    ensures Fingerprint(d1, sha) == Fingerprint(d2, sha)
  {
    NormalizedIgnoresOrder(SplitLines(d1), SplitLines(d2));
  }
}

/**
 * ASCII string helpers mirroring the Python `str` operations the commit
 * generator relies on: `lower`, `startswith`, `in`, `split`, `strip`,
 * `replace`, `"sep".join`, `splitlines` and `str(n)` for naturals.
 */
module Strings {

  /** Python's `str.isspace()` on the ASCII range: \t \n \v \f \r, \x1c-\x1f and space. */
  predicate IsSpace(c: char) {
    (9 <= c as int <= 13) || (28 <= c as int <= 32)
  }

  predicate IsUpper(c: char) { 'A' <= c <= 'Z' }

  function LowerChar(c: char): (d: char)
    ensures !IsUpper(d)
    ensures IsUpper(c) ==> d as int == c as int + 32
    ensures !IsUpper(c) ==> d == c
  {
    if IsUpper(c) then (c as int + 32) as char else c
  }

  /** `str.lower()` on ASCII letters. */
  function Lower(s: string): (r: string)
    ensures |r| == |s|
    ensures forall i :: 0 <= i < |s| ==> r[i] == LowerChar(s[i])
  {
    seq(|s|, i requires 0 <= i < |s| => LowerChar(s[i]))
  }

  lemma LowerIdempotent(s: string)
    ensures Lower(Lower(s)) == Lower(s)
  {
  }

  lemma LowerConcat(a: string, b: string)
    ensures Lower(a + b) == Lower(a) + Lower(b)
  {
    assert forall i :: 0 <= i < |a + b| ==> Lower(a + b)[i] == (Lower(a) + Lower(b))[i];
  }

  /** `s.startswith(p)` */
  predicate StartsWith(s: string, p: string) { p <= s }

  /** `needle in hay` for strings. */
  predicate Contains(hay: string, needle: string)
    decreases |hay|
  {
    needle <= hay || (|hay| > 0 && Contains(hay[1..], needle))
  }

  lemma {:induction false} ContainsShort(hay: string, needle: string)
    requires |hay| < |needle|
    ensures !Contains(hay, needle)
    decreases |hay|
  {
    if |hay| > 0 {
      ContainsShort(hay[1..], needle);
    }
  }

  /** `sep.join(parts)` */
  function Join(parts: seq<string>, sep: string): string
  {
    if parts == [] then ""
    else if |parts| == 1 then parts[0]
    else parts[0] + sep + Join(parts[1..], sep)
  }

  /** `s.endswith(suffix)` */
  predicate EndsWith(s: string, suffix: string)
  {
    |suffix| <= |s| && s[|s| - |suffix|..] == suffix
  }

  lemma EndsWithConcat(prefix: string, suffix: string)
    ensures EndsWith(prefix + suffix, suffix)
  {
    assert (prefix + suffix)[|prefix|..] == suffix;
  }

  /** A string placed between two others is found in the result. */
  lemma {:induction false} ContainsMiddle(a: string, b: string, c: string)
    ensures Contains(a + b + c, b)
    decreases |a|
  {
    if a == [] {
      assert b <= a + b + c;
    } else {
      ContainsMiddle(a[1..], b, c);
      assert (a + b + c)[1..] == a[1..] + b + c;
    }
  }

  /** The first piece opens the joined string. */
  lemma {:induction false} JoinHead(parts: seq<string>, sep: string)
    requires parts != []
    ensures parts[0] <= Join(parts, sep)
  {
    if |parts| > 1 {
      assert Join(parts, sep) == parts[0] + (sep + Join(parts[1..], sep));
    }
  }

  /** `s.split(sep)` for a one-character separator: always at least one piece. */
  function SplitOn(s: string, sep: char): (parts: seq<string>)
    ensures |parts| >= 1
    ensures forall k :: 0 <= k < |parts| ==> sep !in parts[k]
  {
    if s == [] then [[]]
    else
      var rest := SplitOn(s[1..], sep);
      if s[0] == sep then [[]] + rest
      else [[s[0]] + rest[0]] + rest[1..]
  }

  /** Splitting and re-joining with the same separator gives the string back. */
  lemma {:induction false} SplitOnJoin(s: string, sep: char)
    ensures Join(SplitOn(s, sep), [sep]) == s
  {
    if s != [] {
      SplitOnJoin(s[1..], sep);
      var rest := SplitOn(s[1..], sep);
      if s[0] == sep {
        assert SplitOn(s, sep) == [[]] + rest;
        assert ([[]] + rest)[1..] == rest;
      } else {
        var parts := SplitOn(s, sep);
        assert parts == [[s[0]] + rest[0]] + rest[1..];
        if |rest| == 1 {
          assert parts == [[s[0]] + rest[0]];
        } else {
          assert parts[1..] == rest[1..];
        }
      }
    }
  }

  /** Joining pieces free of the separator and splitting again gives the pieces back. */
  lemma {:induction false} SplitOnJoinInverse(parts: seq<string>, sep: char)
    requires parts != []
    requires forall k :: 0 <= k < |parts| ==> sep !in parts[k]
    ensures SplitOn(Join(parts, [sep]), sep) == parts
  {
    SplitOnNone(parts[0], sep);
    if |parts| > 1 {
      SplitOnJoinInverse(parts[1..], sep);
      SplitOnConcat(parts[0], sep, Join(parts[1..], [sep]));
      assert [parts[0]] + parts[1..] == parts;
    }
  }

  /** A string without the separator splits into itself. */
  lemma {:induction false} SplitOnNone(s: string, sep: char)
    requires sep !in s
    ensures SplitOn(s, sep) == [s]
  {
    if s != [] {
      SplitOnNone(s[1..], sep);
      assert [s[0]] + s[1..] == s;
    }
  }

  /** Splitting at a separator splits the two sides independently. */
  lemma {:induction false} SplitOnConcat(a: string, sep: char, b: string)
    ensures SplitOn(a + [sep] + b, sep) == SplitOn(a, sep) + SplitOn(b, sep)
  {
    var s, right := a + [sep] + b, SplitOn(b, sep);
    if a == [] {
      assert s == [sep] + b && s[1..] == b;
    } else {
      assert s[0] == a[0] && s[1..] == a[1..] + [sep] + b;
      SplitOnConcat(a[1..], sep, b);
      var left := SplitOn(a[1..], sep);
      var rest := SplitOn(s[1..], sep);
      assert rest == left + right;
      if a[0] == sep {
        assert SplitOn(s, sep) == [[]] + rest;
        AppendAssoc([[]], left, right);
      } else {
        HeadOfConcat(left, right);
        assert SplitOn(s, sep) == [[a[0]] + rest[0]] + rest[1..];
        AppendAssoc([[a[0]] + left[0]], left[1..], right);
      }
    }
  }

  lemma AppendAssoc<T>(x: seq<T>, y: seq<T>, z: seq<T>)
    ensures x + (y + z) == (x + y) + z
  {
  }

  lemma HeadOfConcat<T>(x: seq<T>, y: seq<T>)
    requires x != []
    ensures (x + y)[0] == x[0] && (x + y)[1..] == x[1..] + y
  {
  }

  /** Every character of a piece of `s.split(sep)` comes from `s`. */
  lemma {:induction false} SplitOnChars(s: string, sep: char, k: nat, c: char)
    requires k < |SplitOn(s, sep)| && c in SplitOn(s, sep)[k]
    ensures c in s
  {
    if s != [] {
      var rest := SplitOn(s[1..], sep);
      if s[0] == sep {
        SplitOnChars(s[1..], sep, k - 1, c);
      } else if k == 0 {
        if c != s[0] {
          SplitOnChars(s[1..], sep, 0, c);
        }
      } else {
        SplitOnChars(s[1..], sep, k, c);
      }
    }
  }

  /** Length of the run of non-space characters at the front of `s`. */
  function WordLen(s: string): (n: nat)
    ensures n <= |s|
    ensures forall i :: 0 <= i < n ==> !IsSpace(s[i])
    ensures n < |s| ==> IsSpace(s[n])
  {
    if s == [] || IsSpace(s[0]) then 0 else 1 + WordLen(s[1..])
  }

  /** `s.split()` with no argument: maximal runs of non-space characters. */
  function Words(s: string): (ws: seq<string>)
    ensures forall k :: 0 <= k < |ws| ==> ws[k] != [] && forall c :: c in ws[k] ==> !IsSpace(c)
    decreases |s|
  {
    if s == [] then []
    else if IsSpace(s[0]) then Words(s[1..])
    else
      var n := WordLen(s);
      [s[..n]] + Words(s[n..])
  }

  function TrimStart(s: string): (r: string)
    ensures r == [] || !IsSpace(r[0])
    ensures |r| <= |s| && r == s[|s| - |r|..]
  {
    if s != [] && IsSpace(s[0]) then TrimStart(s[1..]) else s
  }

  function TrimEnd(s: string): (r: string)
    ensures r == [] || !IsSpace(r[|r| - 1])
    ensures r <= s
  {
    if s != [] && IsSpace(s[|s| - 1]) then TrimEnd(s[..|s| - 1]) else s
  }

  /** `s.strip()` */
  function Strip(s: string): (r: string)
    ensures r == [] || (!IsSpace(r[0]) && !IsSpace(r[|r| - 1]))
  {
    TrimEnd(TrimStart(s))
  }

  /**
   * `s.replace(pat, rep)`: scans left to right and replaces each
   * non-overlapping occurrence of `pat`.
   */
  function ReplaceAll(s: string, pat: string, rep: string): string
    requires pat != []
    decreases |s|
  {
    if s == [] then []
    else if pat <= s then rep + ReplaceAll(s[|pat|..], pat, rep)
    else [s[0]] + ReplaceAll(s[1..], pat, rep)
  }

  /** Deleting substrings introduces no new character. */
  lemma {:induction false} ReplaceAllDeleteChars(s: string, pat: string, c: char)
    requires pat != [] && c in ReplaceAll(s, pat, "")
    ensures c in s
    decreases |s|
  {
    if s != [] {
      if pat <= s {
        ReplaceAllDeleteChars(s[|pat|..], pat, c);
      } else if c != s[0] {
        ReplaceAllDeleteChars(s[1..], pat, c);
      }
    }
  }

  function DigitChar(d: nat): (c: char)
    requires d < 10
    ensures '0' <= c <= '9'
  {
    ('0' as int + d) as char
  }

  /** `str(n)` for a natural number. */
  function NatToString(n: nat): (r: string)
    ensures r != []
    ensures forall c :: c in r ==> '0' <= c <= '9'
  {
    if n < 10 then [DigitChar(n)] else NatToString(n / 10) + [DigitChar(n % 10)]
  }

  /**
   * `s.splitlines()` with `\n` as the only line break: the pieces of
   * `s.split("\n")`, without the empty piece a final `\n` leaves behind.
   */
  function SplitLines(s: string): (lines: seq<string>)
    ensures forall k :: 0 <= k < |lines| ==> '\n' !in lines[k]
  {
    if s == [] then []
    else
      var parts := SplitOn(s, '\n');
      if s[|s| - 1] == '\n' then parts[..|parts| - 1] else parts
  }
}

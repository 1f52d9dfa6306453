/**
 * Python's `sorted` on a list of strings: code-point lexicographic order,
 * in which a proper prefix comes first. Equal strings are identical, so
 * the sorted list is determined by the multiset of its elements.
 */
module Sorting {

  /** `a <= b` for Python strings. */
  predicate LexLe(a: string, b: string)
  {
    a == [] || (b != [] && (a[0] < b[0] || (a[0] == b[0] && LexLe(a[1..], b[1..]))))
  }

  lemma {:induction false} LexReflexive(a: string)
    ensures LexLe(a, a)
  {
    if a != [] {
      LexReflexive(a[1..]);
    }
  }

  lemma {:induction false} LexTotal(a: string, b: string)
    ensures LexLe(a, b) || LexLe(b, a)
  {
    if a != [] && b != [] && a[0] == b[0] {
      LexTotal(a[1..], b[1..]);
    }
  }

  lemma {:induction false} LexAntisymmetric(a: string, b: string)
    requires LexLe(a, b) && LexLe(b, a)
    ensures a == b
  {
    if a != [] {
      LexAntisymmetric(a[1..], b[1..]);
      assert a == [a[0]] + a[1..] && b == [b[0]] + b[1..];
    }
  }

  lemma {:induction false} LexTransitive(a: string, b: string, c: string)
    requires LexLe(a, b) && LexLe(b, c)
    ensures LexLe(a, c)
  {
    if a != [] && a[0] == b[0] && b[0] == c[0] {
      LexTransitive(a[1..], b[1..], c[1..]);
    }
  }

  predicate Sorted(s: seq<string>)
  {
    forall i, j :: 0 <= i < j < |s| ==> LexLe(s[i], s[j])
  }

  /** Places `x` before the first element it does not exceed. */
  function Insert(x: string, s: seq<string>): (r: seq<string>)
    ensures |r| == |s| + 1
    ensures multiset(r) == multiset(s) + multiset{x}
  {
    if s == [] || LexLe(x, s[0]) then [x] + s
    else
      assert s == [s[0]] + s[1..];
      [s[0]] + Insert(x, s[1..])
  }

  /** `sorted(lines)` */
  function Sort(s: seq<string>): (r: seq<string>)
    ensures multiset(r) == multiset(s)
  {
    if s == [] then []
    else
      assert s == s[..|s| - 1] + [s[|s| - 1]];
      Insert(s[|s| - 1], Sort(s[..|s| - 1]))
  }

  lemma {:induction false} InsertSorted(x: string, s: seq<string>)
    requires Sorted(s)
    ensures Sorted(Insert(x, s))
  {
    if s != [] && !LexLe(x, s[0]) {
      InsertSorted(x, s[1..]);
      var r := Insert(x, s);
      var tail := Insert(x, s[1..]);
      LexTotal(x, s[0]);
      assert forall k :: 0 <= k < |tail| ==> LexLe(s[0], tail[k]) by {
        forall k | 0 <= k < |tail| ensures LexLe(s[0], tail[k]) {
          assert tail[k] in multiset(tail);
          assert tail[k] == x || tail[k] in multiset(s[1..]);
        }
      }
    } else if s != [] {
      forall i, j | 0 <= i < j < |s| + 1 ensures LexLe(([x] + s)[i], ([x] + s)[j]) {
        if i == 0 && j > 1 {
          LexTransitive(x, s[0], s[j - 1]);
        }
      }
    }
  }

  lemma {:induction false} SortSorted(s: seq<string>)
    ensures Sorted(Sort(s))
  {
    if s != [] {
      SortSorted(s[..|s| - 1]);
      InsertSorted(s[|s| - 1], Sort(s[..|s| - 1]));
    }
  }

  /** Two sorted lists with the same elements are the same list. */
  lemma {:induction false} SortedUnique(a: seq<string>, b: seq<string>)
    requires Sorted(a) && Sorted(b) && multiset(a) == multiset(b)
    ensures a == b
  {
    if a != [] {
      assert a[0] in multiset(b);
      HeadIsLeast(b, a[0]);
      HeadIsLeast(a, b[0]);
      LexAntisymmetric(a[0], b[0]);
      DropHead(a);
      DropHead(b);
      SortedUnique(a[1..], b[1..]);
      assert |a| == |b|;
      assert forall k :: 0 <= k < |a| ==> a[k] == b[k] by {
        forall k | 0 <= k < |a| ensures a[k] == b[k] {
          if k > 0 { assert a[k] == a[1..][k - 1]; }
        }
      }
    }
  }

  /** The head of a sorted list is its least element. */
  lemma HeadIsLeast(s: seq<string>, x: string)
    requires Sorted(s) && x in multiset(s)
    ensures LexLe(s[0], x)
  {
    var i :| 0 <= i < |s| && s[i] == x;
    if i == 0 {
      LexReflexive(x);
    }
  }

  lemma DropHead(s: seq<string>)
    requires s != []
    ensures multiset(s[1..]) == multiset(s) - multiset{s[0]}
    ensures Sorted(s) ==> Sorted(s[1..])
  {
    assert s == [s[0]] + s[1..];
  }

  /** Sorting forgets the order: lists with the same elements sort alike. */
  lemma SortIgnoresOrder(a: seq<string>, b: seq<string>)
    requires multiset(a) == multiset(b)
    ensures Sort(a) == Sort(b)
  {
    SortSorted(a);
    SortSorted(b);
    SortedUnique(Sort(a), Sort(b));
  }
}

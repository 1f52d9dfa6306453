/**
 * The scope of a commit message (`_infer_scope` and `_sanitize_scope`):
 * for one file the meaningful part of its name, for several files the
 * deepest directory they all share, always reduced to `[a-z0-9-]`, at
 * most 25 characters.
 */
module Scope {
  import opened Strings
  import opened DiffParser

  const MaxScopeLength: nat := 25

  /** `[a-zA-Z0-9-]`: the characters the regular expression keeps. */
  predicate IsScopeChar(c: char)
  {
    ('a' <= c <= 'z') || ('A' <= c <= 'Z') || ('0' <= c <= '9') || c == '-'
  }

  /** What every scope looks like: lower-case letters, digits and `-`, at most 25 of them. */
  predicate IsSanitized(s: string)
  {
    |s| <= MaxScopeLength && forall i :: 0 <= i < |s| ==> (('a' <= s[i] <= 'z') || ('0' <= s[i] <= '9') || s[i] == '-')
  }

  /** `re.sub(r"[^a-zA-Z0-9-]", "", s)` */
  function KeepScopeChars(s: string): (r: string)
    ensures |r| <= |s|
    ensures forall i :: 0 <= i < |r| ==> IsScopeChar(r[i])
    ensures (forall i :: 0 <= i < |s| ==> IsScopeChar(s[i])) ==> r == s
  {
    if s == [] then []
    else if IsScopeChar(s[0]) then [s[0]] + KeepScopeChars(s[1..])
    else KeepScopeChars(s[1..])
  }

  /** `s[:25]` when longer than 25. */
  function Truncate(s: string): (r: string)
    ensures |r| <= MaxScopeLength && r <= s
    ensures |s| <= MaxScopeLength ==> r == s
  {
    if |s| > MaxScopeLength then s[..MaxScopeLength] else s
  }

  /** `_sanitize_scope` */
  function Sanitize(scope: string): (r: string)
    ensures IsSanitized(r)
    ensures scope == [] ==> r == []
  {
    if scope == [] then []
    else
      var hyphenated := ReplaceAll(ReplaceAll(scope, "_", "-"), " ", "-");
      var kept := KeepScopeChars(hyphenated);
      var cut := Truncate(kept);
      assert forall i :: 0 <= i < |cut| ==> cut[i] == kept[i];
      Lower(cut)
  }

  /** Replacing a one-character pattern that does not occur changes nothing. */
  lemma {:induction false} ReplaceAbsent(s: string, c: char, rep: string)
    requires c !in s
    ensures ReplaceAll(s, [c], rep) == s
  {
    if s != [] {
      assert s[0] in s && c !in s[1..];
      ReplaceAbsent(s[1..], c, rep);
      assert [s[0]] + s[1..] == s;
    }
  }

  /** A string that already looks like a scope is its own sanitisation. */
  lemma SanitizeKeepsScopes(s: string)
    requires IsSanitized(s)
    ensures Sanitize(s) == s
  {
    if s != [] {
      ReplaceAbsent(s, '_', "-");
      ReplaceAbsent(s, ' ', "-");
      assert forall i :: 0 <= i < |s| ==> IsScopeChar(s[i]);
      assert Lower(s) == s;
    }
  }

  /** Sanitising twice is sanitising once. */
  lemma SanitizeIdempotent(s: string)
    ensures Sanitize(Sanitize(s)) == Sanitize(s)
  {
    SanitizeKeepsScopes(Sanitize(s));
  }

  // ---------------------------------------------------------------------
  // Paths

  /** `os.path.basename(path)`: what follows the last `/`. */
  function BaseName(path: string): (r: string)
    ensures '/' !in r
    ensures forall c :: c in r ==> c in path
  {
    var parts := SplitOn(path, '/');
    var r := parts[|parts| - 1];
    assert forall c :: c in r ==> c in path by {
      forall c | c in r ensures c in path {
        SplitOnChars(path, '/', |parts| - 1, c);
      }
    }
    r
  }

  /** `basename.split(".")[0]`: the file name before its first dot. */
  function Stem(path: string): (r: string)
    ensures '/' !in r && '.' !in r
    ensures forall c :: c in r ==> c in path
  {
    var pieces := SplitOn(BaseName(path), '.');
    var r := pieces[0];
    assert forall c :: c in r ==> c in BaseName(path) by {
      forall c | c in r ensures c in BaseName(path) {
        SplitOnChars(BaseName(path), '.', 0, c);
      }
    }
    r
  }

  /** File names too generic to name a scope. */
  const GenericNames: set<string> := {"index", "main", "app", "__init__", "mod", "lib"}

  /** `path.split("/")[:-1]`: the directories leading to the file. */
  function DirParts(path: string): seq<string>
  {
    var parts := SplitOn(path, '/');
    parts[..|parts| - 1]
  }

  /** The scope of a single-file change, before sanitising. */
  function SingleName(path: string): string
  {
    var parts := SplitOn(path, '/');
    var base := Stem(path);
    if base in GenericNames && |parts| > 1 then parts[|parts| - 2] else base
  }

  /** The pairwise step of the loop: `zip` the two lists and stop at the first difference. */
  function CommonPrefix(a: seq<string>, b: seq<string>): (r: seq<string>)
    ensures r <= a && r <= b
    ensures |r| == |a| || |r| == |b| || a[|r|] != b[|r|]
  {
    if a == [] || b == [] || a[0] != b[0] then []
    else [a[0]] + CommonPrefix(a[1..], b[1..])
  }

  /** Whatever is a prefix of both lists is a prefix of their common prefix. */
  lemma {:induction false} CommonPrefixLongest(a: seq<string>, b: seq<string>, q: seq<string>)
    requires q <= a && q <= b
    ensures q <= CommonPrefix(a, b)
  {
    if q != [] {
      assert a[0] == q[0] == b[0];
      CommonPrefixLongest(a[1..], b[1..], q[1..]);
      assert q == [q[0]] + q[1..];
    }
  }

  /** `common_parts` after the loop over `paths` (which is not empty). */
  function CommonDirs(paths: seq<string>): seq<string>
    requires paths != []
  {
    if |paths| == 1 then DirParts(paths[0])
    else CommonPrefix(CommonDirs(paths[..|paths| - 1]), DirParts(paths[|paths| - 1]))
  }

  predicate CommonToAll(q: seq<string>, paths: seq<string>)
  {
    forall k :: 0 <= k < |paths| ==> q <= DirParts(paths[k])
  }

  /**
   * The loop computes the longest common directory prefix: it is a prefix of
   * every file's directories, and every such common prefix is a prefix of it.
   */
  lemma {:induction false} CommonDirsIsLongest(paths: seq<string>)
    requires paths != []
    ensures CommonToAll(CommonDirs(paths), paths)
    ensures forall q :: CommonToAll(q, paths) ==> q <= CommonDirs(paths)
  {
    if |paths| > 1 {
      var init, last := paths[..|paths| - 1], paths[|paths| - 1];
      CommonDirsIsLongest(init);
      var c := CommonDirs(paths);
      forall k | 0 <= k < |paths| ensures c <= DirParts(paths[k]) {
        if k < |init| {
          assert init[k] == paths[k];
        }
      }
      forall q | CommonToAll(q, paths) ensures q <= c {
        assert CommonToAll(q, init) by {
          forall k | 0 <= k < |init| ensures q <= DirParts(init[k]) {
            assert init[k] == paths[k];
          }
        }
        assert q <= DirParts(paths[|paths| - 1]);
        CommonPrefixLongest(CommonDirs(init), DirParts(last), q);
      }
    }
  }

  /** `_infer_scope` on the touched paths. */
  function ScopeOf(paths: seq<string>): (r: string)
    ensures IsSanitized(r)
    ensures paths == [] ==> r == []
  {
    if paths == [] then []
    else if |paths| == 1 then Sanitize(SingleName(paths[0]))
    else
      var common := CommonDirs(paths);
      if common != [] then Sanitize(common[|common| - 1]) else []
  }

  /** Two prefix-lists that are each the longest common prefix of the other's set are equal. */
  lemma PrefixAntisymmetric(a: seq<string>, b: seq<string>)
    requires a <= b && b <= a
    ensures a == b
  {
  }

  /**
   * For several files the scope does not depend on the order in which the
   * files appear: any two lists holding the same paths give the same scope.
   */
  lemma ScopeIgnoresOrder(paths: seq<string>, others: seq<string>)
    requires |paths| > 1 && |others| > 1
    requires forall p :: p in paths <==> p in others
    ensures ScopeOf(paths) == ScopeOf(others)
  {
    CommonDirsIsLongest(paths);
    CommonDirsIsLongest(others);
    var a, b := CommonDirs(paths), CommonDirs(others);
    assert CommonToAll(a, others) by {
      forall k | 0 <= k < |others| ensures a <= DirParts(others[k]) {
        assert others[k] in paths;
        var j :| 0 <= j < |paths| && paths[j] == others[k];
      }
    }
    assert CommonToAll(b, paths) by {
      forall k | 0 <= k < |paths| ensures b <= DirParts(paths[k]) {
        assert paths[k] in others;
        var j :| 0 <= j < |others| && others[j] == paths[k];
      }
    }
    PrefixAntisymmetric(a, b);
  }

  /** The pieces of `dir/name` are the pieces of `dir` and then `name`. */
  lemma SplitUnder(dir: string, name: string)
    requires '/' !in name
    ensures SplitOn(dir + "/" + name, '/') == SplitOn(dir, '/') + [name]
  {
    SplitOnConcat(dir, '/', name);
    SplitOnNone(name, '/');
  }

  /** The stem of `stem.ext` is `stem`. */
  lemma StemOfName(stem: string, ext: string)
    requires '.' !in stem
    ensures SplitOn(stem + "." + ext, '.')[0] == stem
  {
    SplitOnConcat(stem, '.', ext);
    SplitOnNone(stem, '.');
  }

  /**
   * A single file is named after its own stem, not after its directory:
   * `src/utils/math.py` gives `math`.
   */
  lemma SingleFileNamedAfterStem(dir: string, stem: string, ext: string)
    requires '/' !in stem + "." + ext && '.' !in stem && stem !in GenericNames
    ensures ScopeOf([dir + "/" + stem + "." + ext]) == Sanitize(stem)
  {
    var name := stem + "." + ext;
    assert dir + "/" + stem + "." + ext == dir + "/" + name;
    SplitUnder(dir, name);
    StemOfName(stem, ext);
  }

  /** A generic file name defers to its parent directory: `lib/src/index.ts` gives `src`. */
  lemma GenericFileNamedAfterParent(dir: string, parent: string, stem: string, ext: string)
    requires '/' !in parent && '/' !in stem + "." + ext && '.' !in stem && stem in GenericNames
    ensures ScopeOf([dir + "/" + parent + "/" + stem + "." + ext]) == Sanitize(parent)
  {
    var name := stem + "." + ext;
    assert dir + "/" + parent + "/" + stem + "." + ext == (dir + "/" + parent) + "/" + name;
    SplitUnder(dir + "/" + parent, name);
    SplitUnder(dir, parent);
    StemOfName(stem, ext);
  }

  /** A generic file one level down takes its directory's name: `src/index.ts` gives `src`. */
  lemma GenericTopFileNamedAfterParent(parent: string, stem: string, ext: string)
    requires '/' !in parent && '/' !in stem + "." + ext && '.' !in stem && stem in GenericNames
    ensures ScopeOf([parent + "/" + stem + "." + ext]) == Sanitize(parent)
  {
    var name := stem + "." + ext;
    assert parent + "/" + stem + "." + ext == parent + "/" + name;
    SplitUnder(parent, name);
    SplitOnNone(parent, '/');
    StemOfName(stem, ext);
  }

  /** Two files side by side in one directory take that directory as their scope. */
  lemma SiblingsNamedAfterDirectory(dir: string, first: string, second: string)
    requires '/' !in dir && '/' !in first && '/' !in second
    ensures ScopeOf([dir + "/" + first, dir + "/" + second]) == Sanitize(dir)
  {
    var paths := [dir + "/" + first, dir + "/" + second];
    SplitUnder(dir, first);
    SplitUnder(dir, second);
    SplitOnNone(dir, '/');
    assert DirParts(paths[0]) == [dir] && DirParts(paths[1]) == [dir];
    assert paths[..1] == [paths[0]];
    assert CommonDirs(paths) == CommonPrefix(CommonDirs([paths[0]]), DirParts(paths[1]));
    assert CommonPrefix([dir], [dir]) == [dir] + CommonPrefix([], []);
  }

  /** A top-level file and a file in a directory share no directory, so there is no scope. */
  lemma TopLevelFileGivesNoScope(top: string, other: string)
    requires '/' !in top
    ensures ScopeOf([top, other]) == ""
  {
    SplitOnNone(top, '/');
    assert DirParts(top) == [];
    assert [top, other][..1] == [top];
    assert CommonDirs([top, other]) == CommonPrefix(CommonDirs([top]), DirParts(other));
  }

  // ---------------------------------------------------------------------
  // The loops of `_infer_scope`

  /** The inner `for a, b in zip(common_parts, parts)` loop with its `break`. */
  method ZipCommon(a: seq<string>, b: seq<string>) returns (common: seq<string>)
    ensures common == CommonPrefix(a, b)
  {
    common := [];
    var i := 0;
    while i < |a| && i < |b|
      invariant 0 <= i <= |a| && i <= |b|
      invariant common == a[..i] && a[..i] == b[..i]
      decreases |a| - i
    {
      if a[i] != b[i] {
        break;
      }
      common := common + [a[i]];
      i := i + 1;
    }
    CommonPrefixLongest(a, b, common);
  }

  function Paths(files: seq<FileChange>): seq<string>
  {
    seq(|files|, i requires 0 <= i < |files| => files[i].path)
  }

  /** `_infer_scope` */
  method InferScope(files: seq<FileChange>) returns (scope: string)
    ensures scope == ScopeOf(Paths(files))
  {
    var paths := Paths(files);
    if |paths| == 0 {
      return "";
    }
    if |paths| == 1 {
      return Sanitize(SingleName(paths[0]));
    }
    var commonParts: seq<string> := DirParts(paths[0]);
    var i := 1;
    while i < |paths|
      invariant 1 <= i <= |paths|
      invariant commonParts == CommonDirs(paths[..i])
    {
      commonParts := ZipCommon(commonParts, DirParts(paths[i]));
      assert paths[..i + 1][..i] == paths[..i];
      i := i + 1;
    }
    assert paths[..i] == paths;
    if commonParts != [] {
      scope := Sanitize(commonParts[|commonParts| - 1]);
    } else {
      // The extension tally that follows in the source returns "" on every branch.
      scope := "";
    }
  }
}

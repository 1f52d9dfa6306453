/**
 * `RuleBasedModel._build_summary`: the one-line description after the
 * commit type, chosen from the type, the target (scope, else the first
 * file's stem, else `code`), the number of files and whether the diff only
 * adds, only removes or does both.
 */
module Summary {
  import opened Strings
  import opened CommitTypes
  import opened DiffParser
  import opened TypeInference
  import opened Scope

  /** The nature of the change, from the counts of added and removed lines. */
  datatype Action = Add | Remove | Update

  function ActionOf(totalAdded: nat, totalRemoved: nat): (a: Action)
    ensures a == Add <==> totalAdded > 0 && totalRemoved == 0
    ensures a == Remove <==> totalRemoved > 0 && totalAdded == 0
    ensures a == Update <==> (totalAdded == 0) == (totalRemoved == 0)
  {
    if totalAdded > 0 && totalRemoved == 0 then Add
    else if totalRemoved > 0 && totalAdded == 0 then Remove
    else Update
  }

  /** `primary_name`: the stem of the first file's base name, or empty. */
  function PrimaryName(files: seq<FileChange>): string
  {
    if files == [] || files[0].path == [] then [] else Stem(files[0].path)
  }

  /** `target`: the scope, else the primary name, else `code`; never empty. */
  function Target(scope: string, files: seq<FileChange>): (r: string)
    ensures r != []
    ensures scope != [] ==> r == scope
    ensures scope == [] && PrimaryName(files) != [] ==> r == PrimaryName(files)
    ensures scope == [] && PrimaryName(files) == [] ==> r == "code"
    ensures scope == [] && files == [] ==> r == "code"
  {
    if scope != [] then scope
    else if PrimaryName(files) != [] then PrimaryName(files)
    else "code"
  }

  /** `clean_target` of the test branch: four deletions, applied in this order. */
  function CleanTarget(target: string): string
  {
    var a := ReplaceAll(target, "-test", "");
    var b := ReplaceAll(a, "test-", "");
    var c := ReplaceAll(b, "_test", "");
    ReplaceAll(c, "test_", "")
  }

  /** `_build_summary` */
  function BuildSummary(t: CommitType, scope: string, files: seq<FileChange>, totalAdded: nat, totalRemoved: nat): (s: string)
    ensures s != []
  {
    SummaryText(t, Target(scope, files), |files|, ActionOf(totalAdded, totalRemoved),
      CountNew(files) == |files|, CountDeleted(files) > 0)
  }

  /**
   * The branches of `_build_summary`, over what they look at: the target, the
   * file count, the action, whether every file is new and whether any file
   * is deleted.
   */
  function SummaryText(t: CommitType, target: string, n: nat, action: Action, allNew: bool, anyDeleted: bool): (s: string)
    ensures s != []
  {
    match t
    case Docs =>
      if action == Add then "add documentation for " + target else "update documentation for " + target
    case Test =>
      var clean := CleanTarget(target);
      if n == 1 then
        if action == Add then "add tests for " + clean else "update tests for " + clean
      else if action == Add then "add tests for " + NatToString(n) + " modules"
      else "update test suite"
    case Fix =>
      if n == 1 then "fix issue in " + target else "fix issues in " + NatToString(n) + " files"
    case Feat =>
      if allNew && n > 0 then
        if n == 1 then "add " + target else "add " + NatToString(n) + " new files"
      else if n == 1 then "add feature to " + target
      else "implement new features"
    case Refactor =>
      if anyDeleted then "cleanup and refactor " + target
      else if n == 1 then "refactor " + target
      else "refactor codebase (" + NatToString(n) + " files)"
    case Style => "format code style"
    case Perf => "improve performance of " + target
    case Deps => "update dependencies"
    case Build => "update build configuration"
    case Ci => "update CI/CD configuration"
    case Chore =>
      if n > 1 then
        if action == Add then "add " + NatToString(n) + " files"
        else if action == Remove then "remove content from " + NatToString(n) + " files"
        else "update " + NatToString(n) + " files"
      else if action == Add then "add " + target
      else if action == Remove then "remove " + target
      else "update " + target
  }

  // ---------------------------------------------------------------------
  // Properties

  /**
   * The summaries that talk about one thing end with the target: documentation
   * and performance changes always, fixes, features, refactorings and chores
   * of a single file, and refactorings that delete files.
   */
  lemma SummaryNamesTarget(t: CommitType, scope: string, files: seq<FileChange>, totalAdded: nat, totalRemoved: nat)
    requires t == Docs || t == Perf || (t == Refactor && CountDeleted(files) > 0)
      || (|files| == 1 && (t == Fix || t == Feat || t == Refactor))
      || (|files| <= 1 && t == Chore)
    ensures EndsWith(BuildSummary(t, scope, files, totalAdded, totalRemoved), Target(scope, files))
  {
    var target := Target(scope, files);
    var action := ActionOf(totalAdded, totalRemoved);
    match t
    case Docs =>
      if action == Add {
        EndsWithConcat("add documentation for ", target);
      } else {
        EndsWithConcat("update documentation for ", target);
      }
    case Perf => EndsWithConcat("improve performance of ", target);
    case Refactor =>
      if CountDeleted(files) > 0 {
        EndsWithConcat("cleanup and refactor ", target);
      } else {
        EndsWithConcat("refactor ", target);
      }
    case Fix => EndsWithConcat("fix issue in ", target);
    case Feat =>
      if CountNew(files) == |files| {
        EndsWithConcat("add ", target);
      } else {
        EndsWithConcat("add feature to ", target);
      }
    case Chore =>
      if action == Add {
        EndsWithConcat("add ", target);
      } else if action == Remove {
        EndsWithConcat("remove ", target);
      } else {
        EndsWithConcat("update ", target);
      }
  }

  /** A single test file is described by its cleaned-up target. */
  lemma SingleTestNamesCleanTarget(scope: string, files: seq<FileChange>, totalAdded: nat, totalRemoved: nat)
    requires |files| == 1
    ensures EndsWith(BuildSummary(Test, scope, files, totalAdded, totalRemoved), CleanTarget(Target(scope, files)))
  {
    var clean := CleanTarget(Target(scope, files));
    var s := BuildSummary(Test, scope, files, totalAdded, totalRemoved);
    if ActionOf(totalAdded, totalRemoved) == Add {
      EndsWithConcat("add tests for ", clean);
    } else {
      EndsWithConcat("update tests for ", clean);
    }
  }

  /**
   * The summaries that talk about several files state how many: fixes and
   * chores always, refactorings that delete nothing, features made only of
   * new files, and test changes that only add lines.
   */
  lemma SummaryCountsFiles(t: CommitType, scope: string, files: seq<FileChange>, totalAdded: nat, totalRemoved: nat)
    requires |files| > 1
    requires t == Fix || t == Chore || (t == Refactor && CountDeleted(files) == 0)
      || (t == Feat && CountNew(files) == |files|)
      || (t == Test && ActionOf(totalAdded, totalRemoved) == Add)
    ensures Contains(BuildSummary(t, scope, files, totalAdded, totalRemoved), NatToString(|files|))
  {
    var count := NatToString(|files|);
    var action := ActionOf(totalAdded, totalRemoved);
    match t
    case Fix => ContainsMiddle("fix issues in ", count, " files");
    case Refactor => ContainsMiddle("refactor codebase (", count, " files)");
    case Feat => ContainsMiddle("add ", count, " new files");
    case Test => ContainsMiddle("add tests for ", count, " modules");
    case Chore =>
      if action == Add {
        ContainsMiddle("add ", count, " files");
      } else if action == Remove {
        ContainsMiddle("remove content from ", count, " files");
      } else {
        ContainsMiddle("update ", count, " files");
      }
  }

  /** A diff that touches no file and changes no line is summarised as `update code`. */
  lemma EmptyChangeSummary()
    ensures BuildSummary(Chore, [], [], 0, 0) == "update code"
  {
  }

  /** No summary breaks the line when neither the scope nor the first path does. */
  lemma SummaryIsOneLine(t: CommitType, scope: string, files: seq<FileChange>, totalAdded: nat, totalRemoved: nat)
    requires '\n' !in scope
    requires files != [] ==> '\n' !in files[0].path
    ensures '\n' !in BuildSummary(t, scope, files, totalAdded, totalRemoved)
  {
    SummaryTextIsOneLine(t, Target(scope, files), |files|, ActionOf(totalAdded, totalRemoved),
      CountNew(files) == |files|, CountDeleted(files) > 0);
  }

  lemma SummaryTextIsOneLine(t: CommitType, target: string, n: nat, action: Action, allNew: bool, anyDeleted: bool)
    requires '\n' !in target
    ensures '\n' !in SummaryText(t, target, n, action, allNew, anyDeleted)
  {
    CleanTargetKeepsChars(target, '\n');
    assert '\n' !in NatToString(n);
    if t == Docs || t == Fix {
      DocsFixIsOneLine(t, target, n, action, allNew, anyDeleted);
    } else if t == Test {
      TestIsOneLine(t, target, n, action, allNew, anyDeleted);
    } else if t == Feat {
      FeatIsOneLine(t, target, n, action, allNew, anyDeleted);
    } else if t == Refactor || t == Perf {
      RefactorPerfIsOneLine(t, target, n, action, allNew, anyDeleted);
    } else if t == Chore {
      ChoreIsOneLine(t, target, n, action, allNew, anyDeleted);
    } else {
      FixedTextIsOneLine(t, target, n, action, allNew, anyDeleted);
    }
  }

  lemma DocsFixIsOneLine(t: CommitType, target: string, n: nat, action: Action, allNew: bool, anyDeleted: bool)
    requires t == Docs || t == Fix
    requires '\n' !in target && '\n' !in CleanTarget(target) && '\n' !in NatToString(n)
    ensures '\n' !in SummaryText(t, target, n, action, allNew, anyDeleted)
  {
    match t
    case Docs =>
    case Fix =>
  }

  lemma TestIsOneLine(t: CommitType, target: string, n: nat, action: Action, allNew: bool, anyDeleted: bool)
    requires t == Test
    requires '\n' !in target && '\n' !in CleanTarget(target) && '\n' !in NatToString(n)
    ensures '\n' !in SummaryText(t, target, n, action, allNew, anyDeleted)
  {
  }

  lemma FeatIsOneLine(t: CommitType, target: string, n: nat, action: Action, allNew: bool, anyDeleted: bool)
    requires t == Feat
    requires '\n' !in target && '\n' !in CleanTarget(target) && '\n' !in NatToString(n)
    ensures '\n' !in SummaryText(t, target, n, action, allNew, anyDeleted)
  {
  }

  lemma RefactorPerfIsOneLine(t: CommitType, target: string, n: nat, action: Action, allNew: bool, anyDeleted: bool)
    requires t == Refactor || t == Perf
    requires '\n' !in target && '\n' !in CleanTarget(target) && '\n' !in NatToString(n)
    ensures '\n' !in SummaryText(t, target, n, action, allNew, anyDeleted)
  {
    match t
    case Refactor =>
    case Perf =>
  }

  lemma ChoreIsOneLine(t: CommitType, target: string, n: nat, action: Action, allNew: bool, anyDeleted: bool)
    requires t == Chore
    requires '\n' !in target && '\n' !in CleanTarget(target) && '\n' !in NatToString(n)
    ensures '\n' !in SummaryText(t, target, n, action, allNew, anyDeleted)
  {
  }

  lemma FixedTextIsOneLine(t: CommitType, target: string, n: nat, action: Action, allNew: bool, anyDeleted: bool)
    requires t == Style || t == Deps || t == Build || t == Ci
    requires '\n' !in target && '\n' !in CleanTarget(target) && '\n' !in NatToString(n)
    ensures '\n' !in SummaryText(t, target, n, action, allNew, anyDeleted)
  {
    match t
    case Style =>
    case Deps =>
    case Build =>
    case Ci =>
  }

  /** The test branch's clean-up introduces no character. */
  lemma CleanTargetKeepsChars(target: string, c: char)
    ensures c in CleanTarget(target) ==> c in target
  {
    if c in CleanTarget(target) {
      var a := ReplaceAll(target, "-test", "");
      var b := ReplaceAll(a, "test-", "");
      var d := ReplaceAll(b, "_test", "");
      ReplaceAllDeleteChars(d, "test_", c);
      ReplaceAllDeleteChars(b, "_test", c);
      ReplaceAllDeleteChars(a, "test-", c);
      ReplaceAllDeleteChars(target, "-test", c);
    }
  }

  /** `str.replace` finds nothing to replace when a character of the pattern is absent. */
  lemma {:induction false} ReplaceWithoutChar(s: string, pat: string, rep: string, c: char)
    requires pat != [] && c in pat && c !in s
    ensures ReplaceAll(s, pat, rep) == s
    decreases |s|
  {
    if s != [] {
      var i :| 0 <= i < |pat| && pat[i] == c;
      assert i >= |s| || s[i] != pat[i];
      assert c !in s[1..];
      ReplaceWithoutChar(s[1..], pat, rep, c);
      assert [s[0]] + s[1..] == s;
    }
  }

  /** A target without `-` or `_` is left alone by the test branch's clean-up. */
  lemma CleanTargetKeepsPlainNames(target: string)
    requires '-' !in target && '_' !in target
    ensures CleanTarget(target) == target
  {
    ReplaceWithoutChar(target, "-test", "", '-');
    ReplaceWithoutChar(target, "test-", "", '-');
    ReplaceWithoutChar(target, "_test", "", '_');
    ReplaceWithoutChar(target, "test_", "", '_');
  }

  /** The clean-up only ever deletes: it never lengthens the target. */
  lemma CleanTargetShrinks(target: string)
    ensures |CleanTarget(target)| <= |target|
  {
    var a := ReplaceAll(target, "-test", "");
    var b := ReplaceAll(a, "test-", "");
    var c := ReplaceAll(b, "_test", "");
    DeleteShrinks(target, "-test");
    DeleteShrinks(a, "test-");
    DeleteShrinks(b, "_test");
    DeleteShrinks(c, "test_");
  }

  lemma {:induction false} DeleteShrinks(s: string, pat: string)
    requires pat != []
    ensures |ReplaceAll(s, pat, "")| <= |s|
    decreases |s|
  {
    if s != [] {
      if pat <= s {
        DeleteShrinks(s[|pat|..], pat);
      } else {
        DeleteShrinks(s[1..], pat);
      }
    }
  }
}

/**
 * `RuleBasedModel`: parse the diff, infer type and scope, build the summary
 * and render the message in the conventional, verbose or short layout.
 */
module RuleBased {
  import opened Strings
  import opened CommitTypes
  import opened DiffParser
  import opened TypeInference
  import opened TypeScores
  import opened Scope
  import opened Summary
  import opened Body
  import opened Wrappers

  /** The dictionary `_analyze_diff` returns. */
  datatype Analysis = Analysis(
    commitType: CommitType,
    scope: string,
    summary: string,
    files: seq<FileChange>,
    addedLines: nat,
    removedLines: nat)

  /** `_analyze_diff` as a function of the diff text. */
  function Analyze(diff: string): (a: Analysis)
    ensures a.summary != []
    ensures IsSanitized(a.scope)
    ensures SumAdded(a.files) <= a.addedLines && SumRemoved(a.files) <= a.removedLines
  {
    var lines := SplitLines(diff);
    var st := Scan(lines);
    var addedContent := Lower(Join(st.addedLines, "\n"));
    var removedContent := Lower(Join(st.removedLines, "\n"));
    var t := TypeOf(st.files, addedContent, removedContent, Lower(diff));
    var scope := ScopeOf(Paths(st.files));
    ScanTotalsExact(lines);
    Analysis(t, scope, BuildSummary(t, scope, st.files, |st.addedLines|, |st.removedLines|),
      st.files, |st.addedLines|, |st.removedLines|)
  }

  /** `_analyze_diff`: the scanning loop, then type, scope and summary. */
  method AnalyzeDiff(diff: string) returns (a: Analysis)
    ensures a == Analyze(diff)
  {
    var lines := SplitLines(diff);
    var lower := Lower(diff);
    var st := ScanDiff(lines);
    var totalAdded, totalRemoved := |st.addedLines|, |st.removedLines|;
    var addedContent := Lower(Join(st.addedLines, "\n"));
    var removedContent := Lower(Join(st.removedLines, "\n"));
    var commitType := InferType(st.files, addedContent, removedContent, lower);
    var scope := InferScope(st.files);
    var summary := BuildSummary(commitType, scope, st.files, totalAdded, totalRemoved);
    a := Analysis(commitType, scope, summary, st.files, totalAdded, totalRemoved);
  }

  /** `type` followed by `(scope)` when the scope is not empty. */
  function Header(a: Analysis): string
  {
    Name(a.commitType) + (if a.scope != [] then "(" + a.scope + ")" else [])
  }

  /** The three layouts of `generate_commit_message`; any unknown style renders short. */
  function Render(style: string, a: Analysis): string
  {
    if style == "conventional" then Header(a) + ": " + a.summary
    else if style == "verbose" then Header(a) + ": " + a.summary + "\n\n" + BodyText(a.files)
    else if a.scope != [] then a.summary + " in " + a.scope
    else a.summary
  }

  /** `style or "conventional"` */
  function StyleOrDefault(style: Option<string>): (s: string)
    ensures s != []
    ensures style.Some? && style.value != [] ==> s == style.value
    ensures style.None? || style.value == [] ==> s == "conventional"
  {
    if style.Some? && style.value != [] then style.value else "conventional"
  }

  class RuleBasedModel {
    const style: string

    /** `__init__`: a missing or empty style means `conventional`. */
    constructor(style: Option<string>)
      ensures this.style == StyleOrDefault(style)
    {
      this.style := StyleOrDefault(style);
    }

    /** `generate_commit_message` */
    method GenerateCommitMessage(diff: string) returns (msg: string)
      ensures msg == Render(style, Analyze(diff))
    {
      var analysis := AnalyzeDiff(diff);
      msg := Format(style, analysis);
    }
  }

  /** The layout branches of `generate_commit_message` on a finished analysis. */
  method Format(style: string, analysis: Analysis) returns (msg: string)
    ensures msg == Render(style, analysis)
  {
    var header := Name(analysis.commitType);
    if analysis.scope != [] {
      header := header + "(" + analysis.scope + ")";
    }
    assert header == Header(analysis);
    if style == "conventional" {
      msg := header + ": " + analysis.summary;
    } else if style == "verbose" {
      var body := GenerateBody(analysis.files);
      msg := header + ": " + analysis.summary + "\n\n" + body;
    } else if analysis.scope != [] {
      msg := analysis.summary + " in " + analysis.scope;
    } else {
      msg := analysis.summary;
    }
  }

  // ---------------------------------------------------------------------
  // Properties of the rendered message

  /** The verbose message is the conventional one followed by a blank line and the body. */
  lemma VerboseExtendsConventional(a: Analysis)
    ensures Render("verbose", a) == Render("conventional", a) + "\n\n" + BodyText(a.files)
  {
  }

  /** Every style other than `conventional` and `verbose` renders like `short`. */
  lemma UnknownStyleRendersShort(style: string, a: Analysis)
    requires style != "conventional" && style != "verbose"
    ensures Render(style, a) == Render("short", a)
  {
  }

  /** The short message starts with the summary and, when there is a scope, ends with it. */
  lemma ShortShape(a: Analysis)
    ensures a.summary <= Render("short", a)
    ensures a.scope != [] ==> EndsWith(Render("short", a), a.scope)
    ensures a.scope == [] ==> Render("short", a) == a.summary
  {
    if a.scope != [] {
      assert Render("short", a) == (a.summary + " in ") + a.scope;
      EndsWithConcat(a.summary + " in ", a.scope);
    }
  }

  /** The text up to the first `(` or `:`: the type tag of a conventional header. */
  function TagOf(msg: string): (tag: string)
    ensures tag <= msg
    ensures '(' !in tag && ':' !in tag
  {
    if msg == [] || msg[0] == '(' || msg[0] == ':' then [] else [msg[0]] + TagOf(msg[1..])
  }

  lemma {:induction false} TagOfPrefix(tag: string, rest: string)
    requires '(' !in tag && ':' !in tag
    requires rest != [] && (rest[0] == '(' || rest[0] == ':')
    ensures TagOf(tag + rest) == tag
  {
    if tag != [] {
      assert (tag + rest)[1..] == tag[1..] + rest;
      TagOfPrefix(tag[1..], rest);
    } else {
      assert tag + rest == rest;
    }
  }

  lemma NameIsPlain(t: CommitType)
    ensures Name(t) != []
    ensures '(' !in Name(t) && ':' !in Name(t) && '\n' !in Name(t)
  {
    match t
    case Feat => case Fix => case Docs => case Style => case Refactor => case Perf =>
    case Test => case Build => case Ci => case Chore => case Deps =>
  }

  /**
   * The commit type can be read back from a conventional or verbose message:
   * the text before the first `(` or `:` is the type's tag, and distinct
   * types have distinct tags.
   */
  lemma TypeReadBack(style: string, a: Analysis, t: CommitType)
    requires style == "conventional" || style == "verbose"
    requires TagOf(Render(style, a)) == Name(t)
    ensures t == a.commitType
  {
    NameIsPlain(a.commitType);
    var rest := Render(style, a)[|Name(a.commitType)|..];
    assert Render(style, a) == Name(a.commitType) + rest;
    TagOfPrefix(Name(a.commitType), rest);
    NameInjective(t, a.commitType);
  }

  /** A non-empty scope appears in parentheses right after the type. */
  lemma ScopeInHeader(style: string, a: Analysis)
    requires style == "conventional" || style == "verbose"
    requires a.scope != []
    ensures Name(a.commitType) + "(" + a.scope + "):" <= Render(style, a)
  {
  }

  /** The conventional message of any diff is a single line. */
  lemma ConventionalIsOneLine(diff: string)
    ensures '\n' !in Render("conventional", Analyze(diff))
  {
    SummaryOfDiffIsOneLine(diff);
    ConventionalOneLine(Analyze(diff));
  }

  lemma ConventionalOneLine(a: Analysis)
    requires '\n' !in a.summary && IsSanitized(a.scope)
    ensures '\n' !in Render("conventional", a)
  {
    NameIsPlain(a.commitType);
  }

  lemma SummaryOfDiffIsOneLine(diff: string)
    ensures '\n' !in Analyze(diff).summary
  {
    var lines := SplitLines(diff);
    ScanPathsHaveNoSpace(lines);
    AnalyzeSummary(diff);
    var a := Analyze(diff);
    SummaryOfPartsIsOneLine(a.commitType, a.scope, Scan(lines).files, a.addedLines, a.removedLines);
  }

  /** The summary of an analysis is built from its own type, scope, records and totals. */
  lemma AnalyzeSummary(diff: string)
    ensures var a := Analyze(diff);
      && a.files == Scan(SplitLines(diff)).files
      && a.summary == BuildSummary(a.commitType, a.scope, a.files, a.addedLines, a.removedLines)
  {
  }

  lemma SummaryOfPartsIsOneLine(t: CommitType, scope: string, files: seq<FileChange>, totalAdded: nat, totalRemoved: nat)
    requires IsSanitized(scope)
    requires forall i :: 0 <= i < |files| ==> NoSpaceIn(files[i].path)
    ensures '\n' !in BuildSummary(t, scope, files, totalAdded, totalRemoved)
  {
    assert '\n' !in scope by {
      forall i | 0 <= i < |scope| ensures scope[i] != '\n' {
      }
    }
    if files != [] {
      assert IsSpace('\n');
    }
    SummaryIsOneLine(t, scope, files, totalAdded, totalRemoved);
  }

  /** An empty diff is analysed as a `chore` with no scope and the summary `update code`. */
  lemma EmptyDiffAnalysis()
    ensures Analyze("") == Analysis(Chore, "", "update code", [], 0, 0)
  {
    assert SplitLines("") == [];
    assert Join([], "\n") == "" && Lower("") == "";
    NothingScoresChore();
    EmptyChangeSummary();
  }

  /** So its conventional message is `chore: update code` and its short one `update code`. */
  lemma EmptyDiffMessage()
    ensures Render("conventional", Analyze("")) == "chore: update code"
    ensures Render("short", Analyze("")) == "update code"
  {
    EmptyDiffAnalysis();
    EmptyAnalysisMessage(Analyze(""));
  }

  lemma EmptyAnalysisMessage(a: Analysis)
    requires a == Analysis(Chore, "", "update code", [], 0, 0)
    ensures Render("conventional", a) == "chore: update code"
    ensures Render("short", a) == "update code"
  {
  }
}

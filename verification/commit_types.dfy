/**
 * The fixed table `RuleBasedModel.COMMIT_TYPES`: eleven commit types, each
 * with content keywords, path patterns and a priority, in declaration order.
 */
module CommitTypes {

  datatype CommitType = Feat | Fix | Docs | Style | Refactor | Perf | Test | Build | Ci | Chore | Deps

  /** The tag written in the rendered message. */
  function Name(t: CommitType): string
  {
    match t
    case Feat => "feat"
    case Fix => "fix"
    case Docs => "docs"
    case Style => "style"
    case Refactor => "refactor"
    case Perf => "perf"
    case Test => "test"
    case Build => "build"
    case Ci => "ci"
    case Chore => "chore"
    case Deps => "deps"
  }

  /** The table's keys in declaration order (the order of `COMMIT_TYPES.items()`). */
  const AllTypes: seq<CommitType> := [Feat, Fix, Docs, Style, Refactor, Perf, Test, Build, Ci, Chore, Deps]

  /** The eleven tags. */
  const TypeNames: set<string> :=
    {"feat", "fix", "docs", "style", "refactor", "perf", "test", "build", "ci", "chore", "deps"}

  /** Every type is listed exactly once in the table, and its tag is one of the eleven. */
  lemma {:induction false} AllTypesComplete(t: CommitType)
    ensures t in AllTypes
    ensures Name(t) in TypeNames
    ensures forall i, j :: 0 <= i < j < |AllTypes| ==> AllTypes[i] != AllTypes[j]
  {
  }

  /** Distinct types are written with distinct tags. */
  lemma NameInjective(s: CommitType, t: CommitType)
    requires Name(s) == Name(t)
    ensures s == t
  {
  }

  /** `config["patterns"]`: keywords searched for in the changed lines. */
  function Keywords(t: CommitType): seq<string>
  {
    match t
    case Feat => ["add", "new", "create", "implement", "feature", "introduce"]
    case Fix => ["fix", "bug", "error", "issue", "hotfix", "patch", "resolve", "repair"]
    case Docs => ["document", "readme", "changelog", "docs", "comment", "jsdoc", "docstring"]
    case Style => ["format", "lint", "style", "prettier", "eslint", "whitespace", "indent"]
    case Refactor => ["refactor", "cleanup", "clean", "organize", "restructure", "simplify", "rename", "move"]
    case Perf => ["performance", "optimize", "speed", "fast", "cache", "lazy", "perf"]
    case Test => ["test", "spec", "coverage", "mock", "stub", "e2e", "unit"]
    case Build => ["build", "compile", "bundle", "webpack", "vite", "rollup"]
    case Ci => ["ci", "pipeline", "workflow", "deploy", "github actions", "jenkins"]
    case Chore => ["chore", "misc", "update", "upgrade", "maintain"]
    case Deps => ["dependency", "dependencies", "package", "install", "upgrade"]
  }

  /** `config["file_patterns"]`: substrings searched for in the touched paths. */
  function PathPatterns(t: CommitType): seq<string>
  {
    match t
    case Docs => [".md", "readme", "docs/", "doc/", "changelog", ".rst", ".txt"]
    case Style => [".prettierrc", ".eslintrc", ".stylelintrc"]
    case Test => [".test.", "_test.", "test_", ".spec.", "_spec.", "tests/", "__tests__/", "spec/"]
    case Build => ["webpack", "vite.config", "rollup.config", "tsconfig", "babel.config"]
    case Ci => [".github/", ".gitlab-ci", "jenkinsfile", ".travis", ".circleci", "azure-pipelines"]
    case Chore => [".gitignore", ".editorconfig", ".nvmrc", ".node-version"]
    case Deps => ["package.json", "package-lock.json", "yarn.lock", "requirements", "pyproject.toml", "poetry.lock", "go.mod", "cargo.toml", "gemfile"]
    case _ => []
  }

  /** `config["priority"]` */
  function Priority(t: CommitType): (p: nat)
    ensures p > 0
  {
    match t
    case Feat => 5
    case Fix => 10
    case Docs => 8
    case Style => 3
    case Refactor => 4
    case Perf => 6
    case Test => 7
    case Build => 6
    case Ci => 7
    case Chore => 1
    case Deps => 6
  }

  /** `fix_indicators`: searched for in the whole lower-cased diff, headers included. */
  const FixIndicators: seq<string> := ["fix", "bug", "error", "issue", "crash", "problem", "broken"]
}

# auto-commiter: a verified model of the rule-based commit-message core

auto-commiter writes a commit message for a git diff. This project models
the part of it that works without a language model. That part has three
pieces:

- **`RuleBasedModel`** (`models/rule_based.py`) reads the diff line by line
  and records each file with its added and removed line counts and its
  new/deleted flags. It scores the eleven commit types of its
  `COMMIT_TYPES` table by path patterns, content keywords and structural
  bonuses, and takes the first type with the highest score. It derives a
  scope from the file name or the deepest common directory, then
  sanitises it. It builds a one-line summary and renders the message in
  the `conventional`, `verbose` or `short` layout.
- **The selectors** (`strategies/selector.py`) check a style name or a model
  name against a fixed list, ignoring case.
- **The cache** (`cache.py`) fingerprints a diff in a way that does not
  depend on line order, whitespace padding or `index`/`@@` lines. It keys
  messages by `fingerprint:style`. It expires entries after 30 days, keeps
  at most the 500 newest, and counts hits and misses.

The Dafny modules follow the source:

- `Strings`: Python's `str` helpers used by the core, ASCII only.
- `CommitTypes`: the `COMMIT_TYPES` table.
- `DiffParser`: the scanning loop of `_analyze_diff`.
- `TypeInference` and `TypeScores`: `_infer_type` and what its scores add up to.
- `Scope`: `_infer_scope` and `_sanitize_scope`.
- `Summary`: `_build_summary`.
- `Body`: `_generate_body`.
- `RuleBased`: `_analyze_diff`, the class `RuleBasedModel` and its three layouts.
- `Selector`: the two selectors.
- `Sorting`: Python's `sorted` on strings.
- `DiffHash`: `_compute_diff_hash`.
- `Cache`: the cache's entries, clean-up, look-up and store, with the class `CacheState`.

Operations that loop in the source are methods with loop invariants. Each
method is proved equal to a specification function, and the lemmas are
proved about those functions. For example, `TypeInference.InferType` is
proved to compute `TypeOf`, and `TypeScores.InferredTypeIsFirstMaximal`
proves what `TypeOf` returns. The cache's state is a class whose methods
update its entry list and its counters.

## Model

| member | source | states |
|---|---|---|
| CommitTypes.AllTypesComplete | models/rule_based.py:23-79 | the table lists each of the eleven types exactly once, in declaration order, and each tag is one of the eleven names |
| CommitTypes.NameInjective | models/rule_based.py:23-79 | distinct commit types have distinct tags |
| CommitTypes.Priority | models/rule_based.py:23-79 | every type's priority is positive |
| DiffParser.ScanDiff | models/rule_based.py:112-149 | the scanning loop ends in the state `Scan` defines, a left fold of the per-line `if`/`elif` chain |
| DiffParser.HeaderEffect | models/rule_based.py:122-135 | a `diff --git` line with at least four words appends one fresh record (path = third word less a leading `a/`, zero counts, flags false) and changes nothing else; a shorter header changes nothing; any other line keeps the number of records and every path |
| DiffParser.ContentLineEffect | models/rule_based.py:136-149 | once a record exists, a `+` line (not `+++`) appends its text minus the marker to the added lines and bumps only the last record's `added`; `-` lines likewise for `removed`; the mode lines set only the last record's flag |
| DiffParser.ScanGrows | models/rule_based.py:121-149 | scanning more lines never removes a record or changes an earlier path; counts and flags only grow, and the added and removed line lists only grow by appending |
| DiffParser.ScanTotals | models/rule_based.py:142-152 | the per-file added (removed) counts plus the `+` (`-`) lines seen before the first header sum to `total_added` (`total_removed`) |
| DiffParser.ScanTotalsExact | models/rule_based.py:142-152 | the per-file sums never exceed the totals, and equal them exactly when no `+` (`-`) line comes before the first file header |
| DiffParser.ScanPathsHaveNoSpace | models/rule_based.py:122-128 | no recorded path contains whitespace, because it is a word of the header split on whitespace |
| TypeInference.ScorePatterns | models/rule_based.py:196-198 | one inner pattern loop adds `weight` once for each pattern that occurs in the text, in pattern order |
| TypeInference.ScorePaths | models/rule_based.py:192-198 | the path-pattern loops tally the path events of every type in table order |
| TypeInference.ScoreKeywords | models/rule_based.py:201-205 | the keyword loops tally the keyword events of every type in table order |
| TypeInference.ScoreBonuses | models/rule_based.py:207-230 | the structural bonuses (all new +15 feat, all deleted +10 chore, only additions +5 feat, else removed > 2×added +5 refactor, a fix indicator +8 fix) are tallied in source order |
| TypeInference.InferType | models/rule_based.py:182-235 | `_infer_type` returns `TypeOf`: `chore` for an empty counter, else the type at the first maximal entry of the insertion-ordered counter |
| TypeInference.FirstMax | models/rule_based.py:235 | the index chosen holds a maximal score, and every entry before it scores strictly less |
| TypeInference.TallyScores | models/rule_based.py:190-230 | the counter built from the events has distinct keys; each type's count is the sum of its events' points; a type has a key exactly when it has an event |
| TypeInference.TallyOrder | models/rule_based.py:190-230 | the counter's key order is the order in which the types first scored |
| TypeInference.WinnerIsFirstMaximal | models/rule_based.py:232-235 | for positive events the winner is `chore` when there are none; otherwise it scores, no type outscores it, and every other type with the same score first scored later |
| TypeScores.ScoreFormula | models/rule_based.py:192-230 | a type's final score is 2×priority per path pattern found, plus priority per keyword found (each pattern once, however often it occurs), plus its bonus |
| TypeScores.PathPoints | models/rule_based.py:195-198 | over a list of distinct types, the path events give a listed type 2×priority×(patterns found) and any other type nothing |
| TypeScores.KeywordPoints | models/rule_based.py:202-205 | over a list of distinct types, the keyword events give a listed type priority×(keywords found) and any other type nothing |
| TypeScores.BonusOfPoints | models/rule_based.py:213-230 | the bonus events give each type exactly the points of the bonus table for the given signals |
| TypeScores.InferredTypeIsFirstMaximal | models/rule_based.py:182-235 | the returned type is `chore` when every score is 0; otherwise no type scores more, and on a tie it is the type whose first point came earliest, not the type declared first |
| TypeScores.StrictWinner | models/rule_based.py:232-235 | a type that strictly outscores every other type is the one returned |
| TypeScores.OneFileScores | models/rule_based.py:192-230 | one empty file `a.md` scores 16 for docs, 15 for feat when new, 10 for chore when deleted, and 0 otherwise |
| TypeScores.AllNewNotAlwaysFeat | models/rule_based.py:213-215 | a change set whose every file is new (one empty new `a.md`, no changed lines) can still be typed `docs`, not `feat` |
| TypeScores.AllDeletedNotAlwaysChore | models/rule_based.py:217-219 | a change set whose every file is deleted (one empty deleted `a.md`) can still be typed `docs`, not `chore` |
| TypeScores.NothingScoresChore | models/rule_based.py:232-233 | with no file and no text nothing scores, and the type is `chore` |
| Scope.KeepScopeChars | models/rule_based.py:301 | the result keeps only `[a-zA-Z0-9-]`, is no longer than the input, and equals the input when the input has only such characters |
| Scope.Truncate | models/rule_based.py:304-305 | the result is a prefix of at most 25 characters, and is the whole input when that is short enough |
| Scope.Sanitize | models/rule_based.py:292-307 | every sanitised scope has at most 25 characters, all in `[a-z0-9-]`; an empty scope stays empty |
| Scope.SanitizeKeepsScopes | models/rule_based.py:292-307 | a string that already has the sanitised shape is returned unchanged |
| Scope.SanitizeIdempotent | models/rule_based.py:292-307 | sanitising twice is sanitising once |
| Scope.BaseName | models/rule_based.py:250 | the base name has no `/` and only characters of the path |
| Scope.Stem | models/rule_based.py:250-251 | the stem has no `/` and no `.`, and only characters of the path |
| Scope.CommonPrefix | models/rule_based.py:269-275 | the result is a prefix of both lists, and stops at the end of one of them or at the first difference |
| Scope.CommonPrefixLongest | models/rule_based.py:269-275 | every common prefix of the two lists is a prefix of the result |
| Scope.ZipCommon | models/rule_based.py:269-275 | the `zip` loop with its `break` computes `CommonPrefix` |
| Scope.CommonDirsIsLongest | models/rule_based.py:262-275 | the outer loop yields a directory prefix shared by every file, and every shared prefix is a prefix of it |
| Scope.ScopeOf | models/rule_based.py:237-290 | every scope is sanitised, and no file gives the empty scope |
| Scope.InferScope | models/rule_based.py:237-290 | `_infer_scope` computes `ScopeOf` of the recorded paths |
| Scope.ScopeIgnoresOrder | models/rule_based.py:261-280 | for two or more files the scope depends only on the set of paths, not their order |
| Scope.SingleFileNamedAfterStem | models/rule_based.py:245-259 | a single non-generic file `dir/stem.ext` gets the scope `stem`, not its directory |
| Scope.GenericFileNamedAfterParent | models/rule_based.py:253-259 | a single `index`/`main`/`app`/`__init__`/`mod`/`lib` file two or more levels down (`dir/parent/index.ts`) takes its parent directory's name |
| Scope.GenericTopFileNamedAfterParent | models/rule_based.py:253-259 | a single generic file one level down (`parent/index.ts`) takes its directory's name |
| Scope.SiblingsNamedAfterDirectory | models/rule_based.py:261-280 | two files in the same top directory take that directory as the scope |
| Scope.TopLevelFileGivesNoScope | models/rule_based.py:277-290 | a top-level file changed with any other file leaves the scope empty |
| Summary.ActionOf | models/rule_based.py:330-336 | `add` exactly when lines were only added, `remove` exactly when lines were only removed, `update` exactly when both or neither |
| Summary.Target | models/rule_based.py:324-328 | the target is never empty: the scope when there is one; otherwise the first file's stem when that is not empty; otherwise `code` |
| Summary.BuildSummary | models/rule_based.py:309-402 | every summary is non-empty |
| Summary.SummaryNamesTarget | models/rule_based.py:339-402 | docs and perf summaries, refactors that delete a file, single-file fix/feat/refactor summaries and chores of at most one file all end with the target |
| Summary.SingleTestNamesCleanTarget | models/rule_based.py:344-349 | a single test file's summary ends with the target after the four `test` affixes are deleted |
| Summary.SummaryCountsFiles | models/rule_based.py:354-396 | for several files, fix and chore summaries, refactors that delete nothing, all-new features and adding test changes state the file count |
| Summary.EmptyChangeSummary | models/rule_based.py:391-402 | no file and no line changes give `update code` |
| Summary.SummaryIsOneLine | models/rule_based.py:309-402 | when neither the scope nor the first path holds a newline, neither does the summary |
| Summary.CleanTargetKeepsChars | models/rule_based.py:345 | the test clean-up introduces no character |
| Summary.CleanTargetKeepsPlainNames | models/rule_based.py:345 | a target with no `-` or `_` is left unchanged |
| Summary.CleanTargetShrinks | models/rule_based.py:345 | the clean-up never lengthens the target |
| Body.Listed | models/rule_based.py:411-421 | line k lists file k, for each of the requested files |
| Body.BodyLines | models/rule_based.py:404-426 | there are no lines exactly when there are no files; otherwise line 0 is `Changed files:`, lines 1 to min(n, 5) are the first files' lines in order, and with more than five files one more line, the last, counts the files left out |
| Body.GenerateBody | models/rule_based.py:404-426 | the loop builds `BodyText`, the lines joined with newlines |
| Body.BodyEmptyIffNoFiles | models/rule_based.py:408-426 | the body is empty exactly when no file changed |
| Body.BodyListsPaths | models/rule_based.py:411-421 | each of the first five files' lines names its path |
| Body.BodyCountsHiddenFiles | models/rule_based.py:423-424 | past five files, the last line counts the files left out |
| Body.FileLineMarker | models/rule_based.py:416-421 | the marker is `+` exactly for new files, `-` exactly for deleted files that are not new, and `*` otherwise |
| Body.BodyRoundTrip | models/rule_based.py:426 | when no path holds a newline, splitting the body on newlines gives back its lines |
| RuleBased.Analyze | models/rule_based.py:110-180 | the analysis has a non-empty summary, a sanitised scope and per-file counts within the totals |
| RuleBased.AnalyzeDiff | models/rule_based.py:110-180 | the method (scan, type, scope, summary) computes `Analyze` |
| RuleBased.StyleOrDefault | models/rule_based.py:81-82 | a missing or empty style becomes `conventional`; any other style is kept as given |
| RuleBased.RuleBasedModel.constructor | models/rule_based.py:81-82 | the model's style is the given style, or `conventional` |
| RuleBased.RuleBasedModel.GenerateCommitMessage | models/rule_based.py:84-108 | the message is the analysis of the diff rendered in the model's style |
| RuleBased.Format | models/rule_based.py:88-108 | the layout branches compute `Render` |
| RuleBased.VerboseExtendsConventional | models/rule_based.py:92-103 | the verbose message is the conventional message, a blank line, then the body |
| RuleBased.UnknownStyleRendersShort | models/rule_based.py:105-108 | any style other than `conventional` or `verbose` renders like `short` |
| RuleBased.ShortShape | models/rule_based.py:105-108 | the short message starts with the summary; it ends with the scope when there is one and is just the summary otherwise |
| RuleBased.TagOf | models/rule_based.py:88-96 | the tag read back is a prefix of the message and holds no `(` or `:` |
| RuleBased.TypeReadBack | models/rule_based.py:88-103 | a conventional or verbose message determines its commit type: the text before the first `(` or `:` is the type's tag |
| RuleBased.ScopeInHeader | models/rule_based.py:88-103 | a non-empty scope appears in parentheses right after the type, before the colon |
| RuleBased.ConventionalIsOneLine | models/rule_based.py:84-96 | the conventional message of every diff is one line |
| RuleBased.EmptyDiffAnalysis | models/rule_based.py:110-180 | an empty diff is a `chore` with no scope, no files and the summary `update code` |
| RuleBased.EmptyDiffMessage | models/rule_based.py:84-108 | an empty diff renders `chore: update code` (conventional) and `update code` (short) |
| Selector.SelectStyle | strategies/selector.py:5-15 | accepted exactly when the lower-cased style is one of the three styles, returning it lower-cased; otherwise the error names the lower-cased input |
| Selector.SelectModel | strategies/selector.py:18-27 | accepted exactly when the lower-cased name is `openai` or `huggingface`; otherwise the error names the lower-cased input |
| Selector.SelectStyleReturnsKnownStyle | strategies/selector.py:5-15 | an accepted style is always one of the three styles |
| Selector.SelectStyleCaseInsensitive | strategies/selector.py:5-15 | inputs that differ only in case give the same result |
| Selector.StylesAreLower | strategies/selector.py:13 | every listed style is already lower case |
| Selector.SelectStyleIdempotent | strategies/selector.py:5-15 | an accepted style, validated again, is accepted unchanged |
| Selector.SelectModelCaseInsensitive | strategies/selector.py:18-27 | inputs that differ only in case give the same result |
| Selector.SelectModelRejectsOrchestratorNames | strategies/selector.py:18-27 | `rule-based` and `auto` are refused in any case |
| Sorting.SortSorted | cache.py:44 | `sorted` returns a list in lexicographic order |
| Sorting.SortedUnique | cache.py:44 | two sorted lists with the same elements are equal |
| Sorting.SortIgnoresOrder | cache.py:44 | lists with the same elements sort to the same list |
| DiffHash.KeptLines | cache.py:34-42 | at most one kept line per input line, and none of them empty |
| DiffHash.Fingerprint | cache.py:44-45 | the fingerprint is a prefix of the digest of the normalised text, exactly 16 characters long when the digest has at least 16 (a SHA-256 hex digest has 64) and never longer |
| DiffHash.ComputeDiffHash | cache.py:26-45 | the filtering loop, sort, join and truncation compute `Fingerprint` |
| DiffHash.NormalizedIgnoresOrder | cache.py:34-44 | reordering the lines does not change the hashed text |
| DiffHash.NormalizedIgnoresLine | cache.py:37-41 | inserting a blank, `index ` or `@@` line anywhere does not change the hashed text |
| DiffHash.NormalizedIgnoresPadding | cache.py:39-42 | changing the whitespace around a line that is not skipped does not change the hashed text |
| DiffHash.FingerprintIgnoresLine | cache.py:26-45 | a diff with one extra blank, `index ` or `@@` line has the same fingerprint as the diff without it |
| DiffHash.FingerprintIgnoresPadding | cache.py:26-45 | diffs that differ only in the whitespace around one line that is not skipped share a fingerprint |
| DiffHash.FingerprintIgnoresOrder | cache.py:26-45 | diffs whose lines agree up to order share a fingerprint |
| Cache.Find | cache.py:106 | the look-up finds an entry exactly when the key is present, and the entry found is stored under that key |
| Cache.Put | cache.py:132-136 | storing under a present key keeps the number of entries; storing under a new key appends it at the end |
| Cache.Unexpired | cache.py:74-77 | the comprehension keeps exactly the input entries younger than 30 days (a missing timestamp counts as 0) |
| Cache.InsertNewestSorted | cache.py:81-85 | inserting into a newest-first list keeps it newest first |
| Cache.SortNewestFirstSorted | cache.py:81-85 | the reverse sort by timestamp yields a newest-first list |
| Cache.CleanupBounded | cache.py:67-89 | after clean-up there are at most 500 entries, each of them an unexpired entry of the input |
| Cache.CleanupKeepsAllWhenFew | cache.py:74-80 | with at most 500 unexpired entries, clean-up keeps every one of them |
| Cache.CleanupDropsOldest | cache.py:80-86 | an unexpired entry that clean-up drops is no newer than any entry it keeps |
| Cache.CleanupDistinct | cache.py:67-89 | clean-up keeps keys distinct |
| Cache.PutFind | cache.py:132-136 | after a store the key finds the new entry, every other key finds what it found before, and keys stay distinct |
| Cache.KeySeparatesStyles | cache.py:103-104 | one diff cached under two styles uses two keys |
| Cache.KeyInjective | cache.py:103-104 | keys built from equally long fingerprints determine the fingerprint and the style |
| Cache.CacheState.constructor | cache.py:56-57 | a new cache has no entries and zero hits and misses |
| Cache.CacheState.CleanupOldEntries | cache.py:67-89 | the entries become `Cleanup` of the old entries, keys stay distinct, and the counters are untouched |
| Cache.CacheState.GetCachedMessage | cache.py:92-115 | on a hit it returns the stored message and counts one hit; on a miss it returns nothing and counts one miss; entries are unchanged |
| Cache.CacheState.CacheMessage | cache.py:118-136 | the entries become the cleaned-up entries with this diff and style's key set to the new message stamped `now`; keys stay distinct; counters are untouched |
| Cache.StoreThenFind | cache.py:118-136 | right after a store there are at most 501 entries, and the stored message is found under its key |

## Left out

- Python's `str` operations are modelled on ASCII. `lower()` folds only `A-Z`. Whitespace for `split()`/`strip()` is Python's ASCII set. `splitlines()` breaks only at `\n` (not at `\r`, `\v`, `\f` or the Unicode separators).
- The `added_content`/`removed_content` parameters of `_build_summary` are unused in the source and are not passed in the model.
- The extension tally at the end of `_infer_scope` (models/rule_based.py:282-290) returns `""` on every branch. The model returns `""` directly.
- `_analyze_diff` also returns the full `files` dictionaries. The model keeps them as `FileChange` records. The `.get` defaults of the record fields are not needed, because every record is built with all five fields.
- Cache persistence (`_load_cache`, `_save_cache`, `_ensure_cache_dir`, `clear_cache`, the JSON file under the home directory) is not modelled. The cache is a `CacheState` object that lives across calls. A corrupt or unreadable file, which the source replaces by an empty cache, is not modelled.
- `get_cache_stats` is not modelled. It reads the counters, and its hit rate is a float.
- SHA-256 is a parameter `sha` of the fingerprint. The model proves nothing about collisions, so two keys from different diffs are distinct only when the digests differ.
- `datetime.now()` is a parameter `now`, one value per call. Timestamps are integers rather than floats.
- Cache.Find: an entry that is present but an empty object is falsy in the source's `if entry:` and counts as a miss. Entries written by `cache_message` always have three fields, so the model treats every present entry as a hit. A missing `"message"` field, which would return `None`, is likewise not modelled. A missing `"stats"` key, which raises `KeyError`, is not modelled either.
- Cache.SortNewestFirst: it places equal timestamps in their original order, as Python's stable `sorted(..., reverse=True)` does. Its contract states only the newest-first order and the permutation, not the stability. `CleanupDropsOldest` therefore says which timestamps survive, not which of several entries with equal timestamps does.
- The `print` calls of the cache, and the parts of the repository outside these three files (CLI, orchestration in core, configuration, settings, logging, git access, the OpenAI and Hugging Face models), are not part of this model.

## Behaviour worth knowing

- An all-new or all-deleted change only earns a bonus. The source's own comments call an all-new change only likely a `feat` (models/rule_based.py:213) and an all-deleted one only possibly a clean-up (models/rule_based.py:217). These are +15 for `feat` and +10 for `chore`, and a path pattern can outweigh them. `TypeScores.AllNewNotAlwaysFeat` and `TypeScores.AllDeletedNotAlwaysChore` give one-file change sets that are typed `docs`.
- A single file's scope is its own stem unless the name is generic. So `src/utils/math.py` gives `math` (`Scope.SingleFileNamedAfterStem`), not its directory.
- On a score tie the winner is the type that scored first, because a `Counter` keeps its keys in the order they were first inserted. It is not necessarily the type declared first or the one with the higher priority (`TypeScores.InferredTypeIsFirstMaximal`).
- `generate_commit_message` does not check the style. It renders every style other than `conventional` and `verbose` like `short` (`RuleBased.UnknownStyleRendersShort`). Only `select_style` raises on an unknown style.

/**
 * `RuleBasedModel._infer_type`: every signal adds points to a commit type in
 * a `Counter`, and `most_common(1)` picks the winner.
 *
 * The model makes the signals explicit as a list of `Event`s in the order
 * the source adds them. `Tally` folds them into an insertion-ordered score
 * table exactly as `scores[t] += n` does: an existing key keeps its place,
 * a new key goes to the end. `Winner` is Python's `max`, which keeps the
 * first maximal entry, so a tie goes to the type that scored first, not to
 * the type declared first.
 */
module TypeInference {
  import opened Strings
  import opened CommitTypes
  import opened DiffParser

  /** `scores[kind] += points` */
  datatype Event = Event(kind: CommitType, points: nat)

  /** The `Counter`: keys in insertion order with their scores. */
  type ScoreTable = seq<(CommitType, nat)>

  // ---------------------------------------------------------------------
  // The signals

  /** One event per pattern of `patterns` found in `hay`, in list order. */
  function PatternEvents(t: CommitType, patterns: seq<string>, hay: string, weight: nat): seq<Event>
  {
    if patterns == [] then []
    else
      PatternEvents(t, patterns[..|patterns| - 1], hay, weight)
      + (if Contains(hay, patterns[|patterns| - 1]) then [Event(t, weight)] else [])
  }

  /** Path-pattern hits, worth twice the priority, type by type. */
  function PathEvents(types: seq<CommitType>, paths: string): seq<Event>
  {
    if types == [] then []
    else
      var t := types[|types| - 1];
      PathEvents(types[..|types| - 1], paths) + PatternEvents(t, PathPatterns(t), paths, 2 * Priority(t))
  }

  /** Keyword hits in the changed lines, worth the priority, type by type. */
  function KeywordEvents(types: seq<CommitType>, content: string): seq<Event>
  {
    if types == [] then []
    else
      var t := types[|types| - 1];
      KeywordEvents(types[..|types| - 1], content) + PatternEvents(t, Keywords(t), content, Priority(t))
  }

  function CountNew(files: seq<FileChange>): nat
  {
    if files == [] then 0 else CountNew(files[..|files| - 1]) + (if files[|files| - 1].isNew then 1 else 0)
  }

  function CountDeleted(files: seq<FileChange>): nat
  {
    if files == [] then 0 else CountDeleted(files[..|files| - 1]) + (if files[|files| - 1].isDeleted then 1 else 0)
  }

  /** `any(p in hay for p in patterns)` */
  predicate AnyContained(patterns: seq<string>, hay: string)
  {
    exists i :: 0 <= i < |patterns| && Contains(hay, patterns[i])
  }

  /**
   * The structural bonuses, given the four signals they depend on. The
   * add/remove ratio uses the per-file sums (rule_based.py:210-211), not the
   * global line counts.
   */
  function BonusEventsOf(allNew: bool, allDeleted: bool, added: nat, removed: nat, fix: bool): seq<Event>
  {
    NewFilesBonus(allNew) + DeletedFilesBonus(allDeleted) + RatioBonus(added, removed) + FixBonus(fix)
  }

  function NewFilesBonus(allNew: bool): seq<Event> { if allNew then [Event(Feat, 15)] else [] }

  function DeletedFilesBonus(allDeleted: bool): seq<Event> { if allDeleted then [Event(Chore, 10)] else [] }

  function RatioBonus(added: nat, removed: nat): seq<Event>
  {
    if added > 0 && removed == 0 then [Event(Feat, 5)]
    else if removed > added * 2 then [Event(Refactor, 5)]
    else []
  }

  function FixBonus(fix: bool): seq<Event> { if fix then [Event(Fix, 8)] else [] }

  function BonusEvents(files: seq<FileChange>, fullDiffLower: string): seq<Event>
  {
    var n := |files|;
    BonusEventsOf(CountNew(files) == n && n > 0, CountDeleted(files) == n && n > 0,
      SumAdded(files), SumRemoved(files), AnyContained(FixIndicators, fullDiffLower))
  }

  function LowerPaths(files: seq<FileChange>): seq<string>
  {
    seq(|files|, i requires 0 <= i < |files| => Lower(files[i].path))
  }

  /** `" ".join(f["path"].lower() for f in files)` */
  function JoinedPaths(files: seq<FileChange>): string
  {
    Join(LowerPaths(files), " ")
  }

  /** All score updates of one `_infer_type` call, in the order the source makes them. */
  function Events(files: seq<FileChange>, addedContent: string, removedContent: string, fullDiffLower: string): seq<Event>
  {
    PathEvents(AllTypes, JoinedPaths(files))
    + KeywordEvents(AllTypes, addedContent + " " + removedContent)
    + BonusEvents(files, fullDiffLower)
  }

  // ---------------------------------------------------------------------
  // The score table

  /** `table[e.kind] += e.points` on an insertion-ordered table. */
  function Bump(table: ScoreTable, e: Event): ScoreTable
  {
    if table == [] then [(e.kind, e.points)]
    else if table[0].0 == e.kind then [(e.kind, table[0].1 + e.points)] + table[1..]
    else [table[0]] + Bump(table[1..], e)
  }

  function Tally(events: seq<Event>): ScoreTable
  {
    if events == [] then [] else Bump(Tally(events[..|events| - 1]), events[|events| - 1])
  }

  /** Continue tallying `events` on top of an existing table. */
  function TallyFrom(table: ScoreTable, events: seq<Event>): ScoreTable
    decreases |events|
  {
    if events == [] then table else TallyFrom(Bump(table, events[0]), events[1..])
  }

  /** Tallying `a` and then `b` on top of it is tallying `a + b`. */
  lemma {:induction false} TallyThen(a: seq<Event>, b: seq<Event>)
    ensures TallyFrom(Tally(a), b) == Tally(a + b)
    decreases |b|
  {
    if b == [] {
      assert a + b == a;
    } else {
      assert (a + [b[0]])[..|a|] == a;
      TallyThen(a + [b[0]], b[1..]);
      assert a + [b[0]] + b[1..] == a + b;
    }
  }

  lemma {:induction false} TallyFromConcat(table: ScoreTable, a: seq<Event>, b: seq<Event>)
    ensures TallyFrom(TallyFrom(table, a), b) == TallyFrom(table, a + b)
    decreases |a|
  {
    if a != [] {
      TallyFromConcat(Bump(table, a[0]), a[1..], b);
      assert (a + b)[1..] == a[1..] + b;
    } else {
      assert a + b == b;
    }
  }

  /** Index of the first maximal score, as Python's `max` finds it. */
  function FirstMax(table: ScoreTable): (k: nat)
    requires table != []
    ensures k < |table|
    ensures forall j :: 0 <= j < |table| ==> table[j].1 <= table[k].1
    ensures forall j :: 0 <= j < k ==> table[j].1 < table[k].1
  {
    if |table| == 1 then 0
    else
      var k := FirstMax(table[..|table| - 1]);
      if table[|table| - 1].1 > table[k].1 then |table| - 1 else k
  }

  /** `"chore" if not scores else scores.most_common(1)[0][0]` */
  function Winner(table: ScoreTable): CommitType
  {
    if table == [] then Chore else table[FirstMax(table)].0
  }

  /** The type `_infer_type` returns. */
  function TypeOf(files: seq<FileChange>, addedContent: string, removedContent: string, fullDiffLower: string): CommitType
  {
    Winner(Tally(Events(files, addedContent, removedContent, fullDiffLower)))
  }

  /** One inner loop of `_infer_type`: `weight` points per pattern found in `hay`. */
  method ScorePatterns(scores: ScoreTable, t: CommitType, patterns: seq<string>, hay: string, weight: nat)
    returns (r: ScoreTable)
    ensures r == TallyFrom(scores, PatternEvents(t, patterns, hay, weight))
  {
    r := scores;
    assert patterns[..0] == [];
    for j := 0 to |patterns|
      invariant r == TallyFrom(scores, PatternEvents(t, patterns[..j], hay, weight))
    {
      ghost var done := PatternEvents(t, patterns[..j], hay, weight);
      assert patterns[..j + 1][..j] == patterns[..j];
      if Contains(hay, patterns[j]) {
        TallyFromConcat(scores, done, [Event(t, weight)]);
        assert [Event(t, weight)][1..] == [];
        assert TallyFrom(r, [Event(t, weight)]) == TallyFrom(Bump(r, Event(t, weight)), []);
        assert PatternEvents(t, patterns[..j + 1], hay, weight) == done + [Event(t, weight)];
        r := Bump(r, Event(t, weight));
      } else {
        assert PatternEvents(t, patterns[..j + 1], hay, weight) == done + [];
        assert done + [] == done;
      }
    }
    assert patterns[..|patterns|] == patterns;
  }

  /** `if cond: scores[e.kind] += e.points` */
  method BumpIf(scores: ScoreTable, cond: bool, e: Event) returns (r: ScoreTable)
    ensures r == TallyFrom(scores, if cond then [e] else [])
  {
    r := scores;
    if cond {
      r := Bump(r, e);
    }
  }

  /** The structural bonuses of `_infer_type` (rule_based.py:208-230). */
  method ScoreBonuses(scores: ScoreTable, files: seq<FileChange>, fullDiffLower: string)
    returns (r: ScoreTable)
    ensures r == TallyFrom(scores, BonusEvents(files, fullDiffLower))
  {
    var newFiles, deletedFiles := CountNew(files), CountDeleted(files);
    var totalAdded, totalRemoved := SumAdded(files), SumRemoved(files);
    ghost var allNew := if newFiles == |files| && |files| > 0 then [Event(Feat, 15)] else [];
    ghost var allDeleted := if deletedFiles == |files| && |files| > 0 then [Event(Chore, 10)] else [];
    ghost var ratio :=
      if totalAdded > 0 && totalRemoved == 0 then [Event(Feat, 5)]
      else if totalRemoved > totalAdded * 2 then [Event(Refactor, 5)]
      else [];
    ghost var fix := if AnyContained(FixIndicators, fullDiffLower) then [Event(Fix, 8)] else [];
    var r1 := BumpIf(scores, newFiles == |files| && |files| > 0, Event(Feat, 15));
    var r2 := BumpIf(r1, deletedFiles == |files| && |files| > 0, Event(Chore, 10));
    var r3;
    if totalAdded > 0 && totalRemoved == 0 {
      r3 := BumpIf(r2, true, Event(Feat, 5));
    } else {
      r3 := BumpIf(r2, totalRemoved > totalAdded * 2, Event(Refactor, 5));
    }
    r := BumpIf(r3, AnyContained(FixIndicators, fullDiffLower), Event(Fix, 8));
    TallyFromConcat(scores, allNew, allDeleted);
    TallyFromConcat(scores, allNew + allDeleted, ratio);
    TallyFromConcat(scores, allNew + allDeleted + ratio, fix);
    assert BonusEvents(files, fullDiffLower) == allNew + allDeleted + ratio + fix;
  }

  /** The first pair of nested loops: path patterns, type by type. */
  method ScorePaths(scores: ScoreTable, types: seq<CommitType>, filePaths: string) returns (r: ScoreTable)
    ensures r == TallyFrom(scores, PathEvents(types, filePaths))
  {
    r := scores;
    for i := 0 to |types|
      invariant r == TallyFrom(scores, PathEvents(types[..i], filePaths))
    {
      var ct := types[i];
      assert types[..i + 1][..i] == types[..i];
      TallyFromConcat(scores, PathEvents(types[..i], filePaths), PatternEvents(ct, PathPatterns(ct), filePaths, 2 * Priority(ct)));
      r := ScorePatterns(r, ct, PathPatterns(ct), filePaths, Priority(ct) * 2);
    }
    assert types[..|types|] == types;
  }

  /** The second pair of nested loops: keywords in the changed lines, type by type. */
  method ScoreKeywords(scores: ScoreTable, types: seq<CommitType>, content: string) returns (r: ScoreTable)
    ensures r == TallyFrom(scores, KeywordEvents(types, content))
  {
    r := scores;
    for i := 0 to |types|
      invariant r == TallyFrom(scores, KeywordEvents(types[..i], content))
    {
      var ct := types[i];
      assert types[..i + 1][..i] == types[..i];
      TallyFromConcat(scores, KeywordEvents(types[..i], content), PatternEvents(ct, Keywords(ct), content, Priority(ct)));
      r := ScorePatterns(r, ct, Keywords(ct), content, Priority(ct));
    }
    assert types[..|types|] == types;
  }

  /** `_infer_type`: path patterns, keywords, bonuses, then `most_common(1)`. */
  method InferType(files: seq<FileChange>, addedContent: string, removedContent: string, fullDiffLower: string)
    returns (t: CommitType)
    ensures t == TypeOf(files, addedContent, removedContent, fullDiffLower)
  {
    var filePaths := JoinedPaths(files);
    var combined := addedContent + " " + removedContent;
    ghost var pathEvents := PathEvents(AllTypes, filePaths);
    ghost var keywordEvents := KeywordEvents(AllTypes, combined);
    ghost var bonusEvents := BonusEvents(files, fullDiffLower);
    var scores := ScorePaths([], AllTypes, filePaths);
    scores := ScoreKeywords(scores, AllTypes, combined);
    scores := ScoreBonuses(scores, files, fullDiffLower);
    TallyFromConcat([], pathEvents, keywordEvents);
    TallyFromConcat([], pathEvents + keywordEvents, bonusEvents);
    TallyThen([], pathEvents + keywordEvents + bonusEvents);
    assert [] + (pathEvents + keywordEvents + bonusEvents) == Events(files, addedContent, removedContent, fullDiffLower);

    if scores == [] {
      return Chore;
    }
    t := scores[FirstMax(scores)].0;
  }

  // ---------------------------------------------------------------------
  // What the table holds

  /** `scores[t]`: 0 for a missing key. */
  function ScoreOf(table: ScoreTable, t: CommitType): nat
  {
    if table == [] then 0 else if table[0].0 == t then table[0].1 else ScoreOf(table[1..], t)
  }

  /** Total points the events give `t`. */
  function Points(events: seq<Event>, t: CommitType): nat
  {
    if events == [] then 0
    else Points(events[..|events| - 1], t) + (if events[|events| - 1].kind == t then events[|events| - 1].points else 0)
  }

  predicate Occurs(events: seq<Event>, t: CommitType)
  {
    exists i :: 0 <= i < |events| && events[i].kind == t
  }

  /** Position of the first event for `t`, or `|events|` when there is none. */
  function FirstIndex(events: seq<Event>, t: CommitType): (k: nat)
    ensures k <= |events|
    ensures k < |events| <==> Occurs(events, t)
    ensures k < |events| ==> events[k].kind == t
    ensures forall i :: 0 <= i < k ==> events[i].kind != t
  {
    if events == [] then 0
    else if events[0].kind == t then 0
    else
      var k := FirstIndex(events[1..], t);
      assert forall i :: 0 < i < |events| ==> events[i] == events[1..][i - 1];
      1 + k
  }

  predicate KeysDistinct(table: ScoreTable)
  {
    forall i, j :: 0 <= i < j < |table| ==> table[i].0 != table[j].0
  }

  predicate HasKey(table: ScoreTable, t: CommitType)
  {
    exists i :: 0 <= i < |table| && table[i].0 == t
  }

  predicate AllPositive(events: seq<Event>)
  {
    forall i :: 0 <= i < |events| ==> events[i].points > 0
  }

  /** Bumping adds the points to the one key concerned and leaves every other score alone. */
  lemma {:induction false} BumpScores(table: ScoreTable, e: Event)
    ensures forall t :: ScoreOf(Bump(table, e), t) == ScoreOf(table, t) + (if t == e.kind then e.points else 0)
  {
    if table != [] {
      var r := Bump(table, e);
      if table[0].0 != e.kind {
        BumpScores(table[1..], e);
        assert r[1..] == Bump(table[1..], e);
      } else {
        assert r[1..] == table[1..];
      }
    }
  }

  /** Bumping never gives a key a second entry. */
  lemma BumpDistinct(table: ScoreTable, e: Event)
    requires KeysDistinct(table)
    ensures KeysDistinct(Bump(table, e))
  {
    BumpShape(table, e);
    var r := Bump(table, e);
    forall i, j | 0 <= i < j < |r| ensures r[i].0 != r[j].0 {
      if j == |table| {
        assert r[i].0 == table[i].0;
        assert !HasKey(table, e.kind);
      }
    }
  }

  lemma {:induction false} BumpPositive(table: ScoreTable, e: Event)
    requires e.points > 0 && forall i :: 0 <= i < |table| ==> table[i].1 > 0
    ensures forall i :: 0 <= i < |Bump(table, e)| ==> Bump(table, e)[i].1 > 0
  {
    if table != [] && table[0].0 != e.kind {
      BumpPositive(table[1..], e);
      var r := Bump(table, e);
      assert forall i :: 0 < i < |r| ==> r[i] == Bump(table[1..], e)[i - 1];
    }
  }

  lemma HasKeyCons(x: (CommitType, nat), rest: ScoreTable, t: CommitType)
    ensures HasKey([x] + rest, t) <==> x.0 == t || HasKey(rest, t)
  {
    var s := [x] + rest;
    if x.0 == t {
      assert s[0].0 == t;
    }
    if HasKey(rest, t) {
      var i :| 0 <= i < |rest| && rest[i].0 == t;
      assert s[i + 1].0 == t;
    }
    if HasKey(s, t) && x.0 != t {
      var i :| 0 <= i < |s| && s[i].0 == t;
      assert rest[i - 1].0 == t;
    }
  }

  /** After a bump the keys are the old keys plus the bumped type. */
  lemma {:induction false} BumpHasKey(table: ScoreTable, e: Event, t: CommitType)
    ensures HasKey(Bump(table, e), t) <==> HasKey(table, t) || t == e.kind
  {
    if table == [] {
      assert Bump(table, e)[0].0 == e.kind;
    } else {
      assert table == [table[0]] + table[1..];
      HasKeyCons(table[0], table[1..], t);
      if table[0].0 == e.kind {
        HasKeyCons((e.kind, table[0].1 + e.points), table[1..], t);
      } else {
        BumpHasKey(table[1..], e, t);
        HasKeyCons(table[0], Bump(table[1..], e), t);
      }
    }
  }

  lemma OccursSnoc(events: seq<Event>, e: Event, t: CommitType)
    ensures Occurs(events + [e], t) <==> Occurs(events, t) || e.kind == t
  {
    var s := events + [e];
    if Occurs(events, t) {
      var i :| 0 <= i < |events| && events[i].kind == t;
      assert s[i].kind == t;
    }
    if e.kind == t {
      assert s[|events|].kind == t;
    }
    if Occurs(s, t) && e.kind != t {
      var i :| 0 <= i < |s| && s[i].kind == t;
      assert events[i].kind == t;
    }
  }

  /** The table's keys are exactly the types some event was for. */
  lemma {:induction false} TallyKeys(events: seq<Event>)
    ensures forall t :: HasKey(Tally(events), t) <==> Occurs(events, t)
  {
    if events != [] {
      var prefix, e := events[..|events| - 1], events[|events| - 1];
      assert events == prefix + [e];
      TallyKeys(prefix);
      forall t ensures HasKey(Tally(events), t) <==> Occurs(events, t) {
        BumpHasKey(Tally(prefix), e, t);
        OccursSnoc(prefix, e, t);
      }
    }
  }

  /** Tallying keeps keys distinct, every score is the points given, keys are exactly the scored types. */
  lemma {:induction false} TallyScores(events: seq<Event>)
    ensures KeysDistinct(Tally(events))
    ensures forall t :: ScoreOf(Tally(events), t) == Points(events, t)
    ensures forall t :: HasKey(Tally(events), t) <==> Occurs(events, t)
  {
    TallyKeys(events);
    if events != [] {
      var prefix, e := events[..|events| - 1], events[|events| - 1];
      TallyScores(prefix);
      BumpScores(Tally(prefix), e);
      BumpDistinct(Tally(prefix), e);
    }
  }

  /** In a table built from positive events every score is positive. */
  lemma {:induction false} TallyPositive(events: seq<Event>)
    requires AllPositive(events)
    ensures forall i :: 0 <= i < |Tally(events)| ==> Tally(events)[i].1 > 0
  {
    if events != [] {
      var prefix := events[..|events| - 1];
      TallyPositive(prefix);
      BumpPositive(Tally(prefix), events[|events| - 1]);
    }
  }

  lemma {:induction false} FirstIndexSnoc(events: seq<Event>, e: Event, t: CommitType)
    ensures FirstIndex(events + [e], t) ==
      if Occurs(events, t) then FirstIndex(events, t) else if e.kind == t then |events| else |events| + 1
  {
    var k := FirstIndex(events + [e], t);
    var k0 := FirstIndex(events, t);
    if Occurs(events, t) {
      assert (events + [e])[k0] == events[k0];
      assert forall i :: 0 <= i < k0 ==> (events + [e])[i] == events[i];
    } else if e.kind == t {
      assert (events + [e])[|events|].kind == t;
      assert forall i :: 0 <= i < |events| ==> (events + [e])[i] == events[i];
    } else {
      assert !Occurs(events + [e], t) by {
        forall i | 0 <= i < |events| + 1 ensures (events + [e])[i].kind != t {
          if i < |events| {
            assert (events + [e])[i] == events[i];
          }
        }
      }
    }
  }

  /** The keys of `table` appear in the order in which they first occur in `events`. */
  predicate OrderedByFirst(table: ScoreTable, events: seq<Event>)
  {
    && (forall i :: 0 <= i < |table| ==> FirstIndex(events, table[i].0) < |events|)
    && (forall i, j :: 0 <= i < j < |table| ==> FirstIndex(events, table[i].0) < FirstIndex(events, table[j].0))
  }

  /** Bumping keeps every key in its place and appends a key it has not seen. */
  lemma {:induction false} BumpShape(table: ScoreTable, e: Event)
    ensures var r := Bump(table, e);
      && |r| == |table| + (if HasKey(table, e.kind) then 0 else 1)
      && (forall i :: 0 <= i < |table| ==> r[i].0 == table[i].0)
      && (!HasKey(table, e.kind) ==> r[|table|].0 == e.kind)
  {
    if table != [] {
      assert table == [table[0]] + table[1..];
      HasKeyCons(table[0], table[1..], e.kind);
      if table[0].0 != e.kind {
        BumpShape(table[1..], e);
        var r := Bump(table, e);
        assert forall i :: 0 < i < |r| ==> r[i] == Bump(table[1..], e)[i - 1];
      }
    } else {
      assert !HasKey(table, e.kind);
    }
  }

  lemma BumpKeepsOrder(table: ScoreTable, events: seq<Event>, e: Event)
    requires OrderedByFirst(table, events)
    requires forall t :: HasKey(table, t) <==> Occurs(events, t)
    ensures OrderedByFirst(Bump(table, e), events + [e])
  {
    BumpShape(table, e);
    var r, longer := Bump(table, e), events + [e];
    forall i | 0 <= i < |table|
      ensures FirstIndex(longer, r[i].0) == FirstIndex(events, table[i].0) < |events|
    {
      OldKeyFirstIndex(table, events, e, i);
    }
    if |r| > |table| {
      NewKeyFirstIndex(table, events, e);
    }
    var before := seq(|table|, i requires 0 <= i < |table| => FirstIndex(events, table[i].0));
    var after := seq(|r|, i requires 0 <= i < |r| => FirstIndex(longer, r[i].0));
    AppendIncreasing(before, after, |events|);
    forall i | 0 <= i < |r| ensures FirstIndex(longer, r[i].0) < |longer| {
      assert after[i] == FirstIndex(longer, r[i].0);
    }
    forall i, j | 0 <= i < j < |r| ensures FirstIndex(longer, r[i].0) < FirstIndex(longer, r[j].0) {
      assert after[i] == FirstIndex(longer, r[i].0) && after[j] == FirstIndex(longer, r[j].0);
    }
  }

  /** Positions that increase and stay below `bound` still increase with `bound` appended. */
  lemma AppendIncreasing(before: seq<int>, after: seq<int>, bound: int)
    requires |before| <= |after| <= |before| + 1
    requires forall i, j :: 0 <= i < j < |before| ==> before[i] < before[j]
    requires forall i :: 0 <= i < |before| ==> after[i] == before[i] < bound
    requires |after| > |before| ==> after[|before|] == bound
    ensures forall i :: 0 <= i < |after| ==> after[i] <= bound
    ensures forall i, j :: 0 <= i < j < |after| ==> after[i] < after[j]
  {
  }

  lemma NewKeyFirstIndex(table: ScoreTable, events: seq<Event>, e: Event)
    requires forall t :: HasKey(table, t) <==> Occurs(events, t)
    requires !HasKey(table, e.kind)
    ensures FirstIndex(events + [e], e.kind) == |events|
  {
    FirstIndexSnoc(events, e, e.kind);
  }

  lemma OldKeyFirstIndex(table: ScoreTable, events: seq<Event>, e: Event, i: nat)
    requires i < |table|
    requires forall t :: HasKey(table, t) <==> Occurs(events, t)
    ensures FirstIndex(events + [e], table[i].0) == FirstIndex(events, table[i].0)
  {
    assert HasKey(table, table[i].0);
    FirstIndexSnoc(events, e, table[i].0);
  }

  /** Table order is the order in which the types first scored. */
  lemma {:induction false} TallyOrder(events: seq<Event>)
    ensures OrderedByFirst(Tally(events), events)
  {
    if events != [] {
      var prefix, e := events[..|events| - 1], events[|events| - 1];
      assert events == prefix + [e];
      TallyOrder(prefix);
      TallyScores(prefix);
      BumpKeepsOrder(Tally(prefix), prefix, e);
    }
  }

  /** Points split over concatenation. */
  lemma {:induction false} PointsConcat(a: seq<Event>, b: seq<Event>, t: CommitType)
    ensures Points(a + b, t) == Points(a, t) + Points(b, t)
    decreases |b|
  {
    if b == [] {
      assert a + b == a;
    } else {
      var init := b[..|b| - 1];
      PointsConcat(a, init, t);
      assert (a + b)[..|a + b| - 1] == a + init;
    }
  }

  /** Positive events give a type points exactly when some event is for it. */
  lemma {:induction false} PointsPositive(events: seq<Event>, t: CommitType)
    requires AllPositive(events)
    ensures Points(events, t) > 0 <==> Occurs(events, t)
  {
    if events != [] {
      var prefix := events[..|events| - 1];
      PointsPositive(prefix, t);
      if Occurs(prefix, t) {
        var k :| 0 <= k < |prefix| && prefix[k].kind == t;
        assert events[k].kind == t;
      }
      if Occurs(events, t) && !Occurs(prefix, t) {
        var k :| 0 <= k < |events| && events[k].kind == t;
        if k < |prefix| {
          assert prefix[k].kind == t;
        }
      }
    }
  }

  /**
   * The winner of a tally of positive events: `Chore` when nothing scored;
   * otherwise a type whose score no other type exceeds, and among the types
   * with that score the one whose first point came earliest.
   */
  lemma WinnerIsFirstMaximal(events: seq<Event>)
    requires AllPositive(events)
    ensures var w := Winner(Tally(events));
      && (events == [] ==> w == Chore)
      && (events != [] ==> Points(events, w) > 0)
      && (forall t :: Points(events, t) <= Points(events, w))
      && (forall t :: t != w && Points(events, t) == Points(events, w) && events != [] ==>
            FirstIndex(events, w) < FirstIndex(events, t))
  {
    var table := Tally(events);
    TallyScores(events);
    TallyOrder(events);
    TallyPositive(events);
    if events != [] {
      assert HasKey(table, events[0].kind) by {
        assert Occurs(events, events[0].kind);
      }
      var k := FirstMax(table);
      var w := table[k].0;
      ScoreOfEntry(table, k);
      forall t ensures Points(events, t) <= Points(events, w) {
        if HasKey(table, t) {
          var j :| 0 <= j < |table| && table[j].0 == t;
          ScoreOfEntry(table, j);
        } else {
          PointsPositive(events, t);
        }
      }
      forall t | t != w && Points(events, t) == Points(events, w)
        ensures FirstIndex(events, w) < FirstIndex(events, t)
      {
        PointsPositive(events, t);
        var j :| 0 <= j < |table| && table[j].0 == t;
        ScoreOfEntry(table, j);
        assert j != k;
      }
    } else {
      forall t ensures Points(events, t) == 0 {
      }
    }
  }

  /** With distinct keys, `ScoreOf` reads the entry at the key's position. */
  lemma {:induction false} ScoreOfEntry(table: ScoreTable, i: nat)
    requires i < |table| && KeysDistinct(table)
    ensures ScoreOf(table, table[i].0) == table[i].1
  {
    if i > 0 {
      ScoreOfEntry(table[1..], i - 1);
      assert table[1..][i - 1] == table[i];
    }
  }
}

module TypeScores {
  import opened Strings
  import opened CommitTypes
  import opened DiffParser
  import opened TypeInference

  /** How many of `patterns` occur in `hay` (each counted once, however often it occurs). */
  function MatchCount(patterns: seq<string>, hay: string): nat
  {
    if patterns == [] then 0
    else MatchCount(patterns[..|patterns| - 1], hay) + (if Contains(hay, patterns[|patterns| - 1]) then 1 else 0)
  }

  /** The bonus points of rule_based.py:213-230 that go to `t`, given the signals. */
  function BonusOf(t: CommitType, allNew: bool, allDeleted: bool, added: nat, removed: nat, fix: bool): nat
  {
    var ratioFeat := added > 0 && removed == 0;
    match t
    case Feat => (if allNew then 15 else 0) + (if ratioFeat then 5 else 0)
    case Chore => if allDeleted then 10 else 0
    case Refactor => if !ratioFeat && removed > added * 2 then 5 else 0
    case Fix => if fix then 8 else 0
    case _ => 0
  }

  function Bonus(t: CommitType, files: seq<FileChange>, fullDiffLower: string): nat
  {
    var n := |files|;
    BonusOf(t, CountNew(files) == n && n > 0, CountDeleted(files) == n && n > 0,
      SumAdded(files), SumRemoved(files), AnyContained(FixIndicators, fullDiffLower))
  }

  /** The final score of `t` in `_infer_type`. */
  function Score(files: seq<FileChange>, addedContent: string, removedContent: string, fullDiffLower: string, t: CommitType): nat
  {
    Points(Events(files, addedContent, removedContent, fullDiffLower), t)
  }

  lemma PointsSingle(e: Event, u: CommitType)
    ensures Points([e], u) == if e.kind == u then e.points else 0
  {
    assert [e][..0] == [];
  }

  lemma {:induction false} PatternPoints(t: CommitType, patterns: seq<string>, hay: string, weight: nat, u: CommitType)
    ensures Points(PatternEvents(t, patterns, hay, weight), u) == if u == t then weight * MatchCount(patterns, hay) else 0
  {
    if patterns != [] {
      var init, last := patterns[..|patterns| - 1], patterns[|patterns| - 1];
      PatternPoints(t, init, hay, weight, u);
      var before := PatternEvents(t, init, hay, weight);
      var hit := Contains(hay, last);
      assert PatternEvents(t, patterns, hay, weight) == before + (if hit then [Event(t, weight)] else []);
      assert MatchCount(patterns, hay) == MatchCount(init, hay) + (if hit then 1 else 0);
      PatternStep(before, t, weight, MatchCount(init, hay), hit, u);
    }
  }

  /** One more pattern adds `weight` points to `t` when it is found and nothing otherwise. */
  lemma PatternStep(before: seq<Event>, t: CommitType, weight: nat, m: nat, hit: bool, u: CommitType)
    requires Points(before, u) == if u == t then weight * m else 0
    ensures Points(before + (if hit then [Event(t, weight)] else []), u)
      == if u == t then weight * (m + (if hit then 1 else 0)) else 0
  {
    if hit {
      PointsConcat(before, [Event(t, weight)], u);
      PointsSingle(Event(t, weight), u);
      Distribute(weight, m);
    } else {
      assert before + [] == before;
    }
  }

  lemma Distribute(w: nat, m: nat)
    ensures w * (m + 1) == w * m + w
  {
  }

  predicate Distinct(types: seq<CommitType>)
  {
    forall i, j :: 0 <= i < j < |types| ==> types[i] != types[j]
  }

  lemma DistinctInit(types: seq<CommitType>)
    requires types != [] && Distinct(types)
    ensures Distinct(types[..|types| - 1])
    ensures types[|types| - 1] !in types[..|types| - 1]
    ensures forall u :: u in types <==> u in types[..|types| - 1] || u == types[|types| - 1]
  {
    var init := types[..|types| - 1];
    forall u ensures u in types <==> u in init || u == types[|types| - 1] {
      if u in types {
        var i :| 0 <= i < |types| && types[i] == u;
        if i < |types| - 1 {
          assert init[i] == u;
        }
      }
    }
  }

  lemma {:induction false} PathPoints(types: seq<CommitType>, paths: string, u: CommitType)
    requires Distinct(types)
    ensures Points(PathEvents(types, paths), u) ==
      if u in types then 2 * Priority(u) * MatchCount(PathPatterns(u), paths) else 0
  {
    if types != [] {
      var init, t := types[..|types| - 1], types[|types| - 1];
      DistinctInit(types);
      PathPoints(init, paths, u);
      PointsConcat(PathEvents(init, paths), PatternEvents(t, PathPatterns(t), paths, 2 * Priority(t)), u);
      PatternPoints(t, PathPatterns(t), paths, 2 * Priority(t), u);
    }
  }

  lemma {:induction false} KeywordPoints(types: seq<CommitType>, content: string, u: CommitType)
    requires Distinct(types)
    ensures Points(KeywordEvents(types, content), u) ==
      if u in types then Priority(u) * MatchCount(Keywords(u), content) else 0
  {
    if types != [] {
      var init, t := types[..|types| - 1], types[|types| - 1];
      DistinctInit(types);
      KeywordPoints(init, content, u);
      PointsConcat(KeywordEvents(init, content), PatternEvents(t, Keywords(t), content, Priority(t)), u);
      PatternPoints(t, Keywords(t), content, Priority(t), u);
    }
  }

  lemma PointsIf(s: seq<Event>, cond: bool, e: Event, u: CommitType)
    requires s == if cond then [e] else []
    ensures Points(s, u) == if cond && e.kind == u then e.points else 0
  {
    if cond {
      assert s[..0] == [];
    }
  }

  lemma PointsIfElse(s: seq<Event>, c1: bool, e1: Event, c2: bool, e2: Event, u: CommitType)
    requires s == if c1 then [e1] else if c2 then [e2] else []
    ensures Points(s, u) == (if c1 && e1.kind == u then e1.points else 0) + (if !c1 && c2 && e2.kind == u then e2.points else 0)
  {
    if c1 || c2 {
      assert s[..0] == [];
    }
  }

  lemma PointsOfFour(a: seq<Event>, b: seq<Event>, c: seq<Event>, d: seq<Event>, u: CommitType)
    ensures Points(a + b + c + d, u) == Points(a, u) + Points(b, u) + Points(c, u) + Points(d, u)
  {
    PointsConcat(a + b + c, d, u);
    PointsConcat(a + b, c, u);
    PointsConcat(a, b, u);
  }

  lemma BonusOfPoints(u: CommitType, allNew: bool, allDeleted: bool, added: nat, removed: nat, fix: bool)
    ensures Points(BonusEventsOf(allNew, allDeleted, added, removed, fix), u) == BonusOf(u, allNew, allDeleted, added, removed, fix)
  {
    PointsOfFour(NewFilesBonus(allNew), DeletedFilesBonus(allDeleted), RatioBonus(added, removed), FixBonus(fix), u);
    GroupPoints(u, allNew, allDeleted, added, removed, fix);
  }

  lemma GroupPoints(u: CommitType, allNew: bool, allDeleted: bool, added: nat, removed: nat, fix: bool)
    ensures Points(NewFilesBonus(allNew), u) == if allNew && u == Feat then 15 else 0
    ensures Points(DeletedFilesBonus(allDeleted), u) == if allDeleted && u == Chore then 10 else 0
    ensures Points(RatioBonus(added, removed), u) ==
      if added > 0 && removed == 0 then (if u == Feat then 5 else 0)
      else if removed > added * 2 && u == Refactor then 5 else 0
    ensures Points(FixBonus(fix), u) == if fix && u == Fix then 8 else 0
  {
    PointsIf(NewFilesBonus(allNew), allNew, Event(Feat, 15), u);
    PointsIf(DeletedFilesBonus(allDeleted), allDeleted, Event(Chore, 10), u);
    PointsIfElse(RatioBonus(added, removed), added > 0 && removed == 0, Event(Feat, 5), removed > added * 2, Event(Refactor, 5), u);
    PointsIf(FixBonus(fix), fix, Event(Fix, 8), u);
  }

  lemma BonusPoints(files: seq<FileChange>, fullDiffLower: string, u: CommitType)
    ensures Points(BonusEvents(files, fullDiffLower), u) == Bonus(u, files, fullDiffLower)
  {
    var n := |files|;
    BonusOfPoints(u, CountNew(files) == n && n > 0, CountDeleted(files) == n && n > 0,
      SumAdded(files), SumRemoved(files), AnyContained(FixIndicators, fullDiffLower));
  }

  /**
   * Each path pattern found in the space-joined lower-cased paths is worth
   * twice the priority, each keyword found in the changed lines the priority
   * (once per pattern, not per occurrence), plus the structural bonuses.
   */
  lemma ScoreFormula(files: seq<FileChange>, addedContent: string, removedContent: string, fullDiffLower: string, t: CommitType)
    ensures Score(files, addedContent, removedContent, fullDiffLower, t) ==
      2 * Priority(t) * MatchCount(PathPatterns(t), JoinedPaths(files))
      + Priority(t) * MatchCount(Keywords(t), addedContent + " " + removedContent)
      + Bonus(t, files, fullDiffLower)
  {
    var paths, content := JoinedPaths(files), addedContent + " " + removedContent;
    AllTypesComplete(t);
    PathPoints(AllTypes, paths, t);
    KeywordPoints(AllTypes, content, t);
    BonusPoints(files, fullDiffLower, t);
    PointsConcat(PathEvents(AllTypes, paths) + KeywordEvents(AllTypes, content), BonusEvents(files, fullDiffLower), t);
    PointsConcat(PathEvents(AllTypes, paths), KeywordEvents(AllTypes, content), t);
  }

  lemma AllPositiveConcat(a: seq<Event>, b: seq<Event>)
    requires AllPositive(a) && AllPositive(b)
    ensures AllPositive(a + b)
  {
    forall i | 0 <= i < |a + b| ensures (a + b)[i].points > 0 {
      if i >= |a| {
        assert (a + b)[i] == b[i - |a|];
      }
    }
  }

  lemma {:induction false} PatternEventsPositive(t: CommitType, patterns: seq<string>, hay: string, weight: nat)
    requires weight > 0
    ensures AllPositive(PatternEvents(t, patterns, hay, weight))
  {
    if patterns != [] {
      PatternEventsPositive(t, patterns[..|patterns| - 1], hay, weight);
      AllPositiveConcat(PatternEvents(t, patterns[..|patterns| - 1], hay, weight),
        if Contains(hay, patterns[|patterns| - 1]) then [Event(t, weight)] else []);
    }
  }

  lemma {:induction false} TypeListPositive(types: seq<CommitType>, hay: string)
    ensures AllPositive(PathEvents(types, hay)) && AllPositive(KeywordEvents(types, hay))
  {
    if types != [] {
      var init, t := types[..|types| - 1], types[|types| - 1];
      TypeListPositive(init, hay);
      PatternEventsPositive(t, PathPatterns(t), hay, 2 * Priority(t));
      PatternEventsPositive(t, Keywords(t), hay, Priority(t));
      AllPositiveConcat(PathEvents(init, hay), PatternEvents(t, PathPatterns(t), hay, 2 * Priority(t)));
      AllPositiveConcat(KeywordEvents(init, hay), PatternEvents(t, Keywords(t), hay, Priority(t)));
    }
  }

  lemma BonusEventsPositive(allNew: bool, allDeleted: bool, added: nat, removed: nat, fix: bool)
    ensures AllPositive(BonusEventsOf(allNew, allDeleted, added, removed, fix))
  {
    var a, b, c, d := NewFilesBonus(allNew), DeletedFilesBonus(allDeleted), RatioBonus(added, removed), FixBonus(fix);
    AllPositiveConcat(a, b);
    AllPositiveConcat(a + b, c);
    AllPositiveConcat(a + b + c, d);
  }

  lemma EventsPositive(files: seq<FileChange>, addedContent: string, removedContent: string, fullDiffLower: string)
    ensures AllPositive(Events(files, addedContent, removedContent, fullDiffLower))
  {
    var paths, content := JoinedPaths(files), addedContent + " " + removedContent;
    var pathEvents, keywordEvents := PathEvents(AllTypes, paths), KeywordEvents(AllTypes, content);
    var n := |files|;
    TypeListPositive(AllTypes, paths);
    TypeListPositive(AllTypes, content);
    BonusEventsPositive(CountNew(files) == n && n > 0, CountDeleted(files) == n && n > 0,
      SumAdded(files), SumRemoved(files), AnyContained(FixIndicators, fullDiffLower));
    AllPositiveConcat(pathEvents, keywordEvents);
    AllPositiveConcat(pathEvents + keywordEvents, BonusEvents(files, fullDiffLower));
  }

  /**
   * `_infer_type` returns `chore` when no type scored; otherwise a type whose
   * score no other type exceeds, and on a tie the type whose first point
   * came earliest (not the type declared first).
   */
  lemma InferredTypeIsFirstMaximal(files: seq<FileChange>, addedContent: string, removedContent: string, fullDiffLower: string)
    ensures var w := TypeOf(files, addedContent, removedContent, fullDiffLower);
      var events := Events(files, addedContent, removedContent, fullDiffLower);
      && ((forall t :: Score(files, addedContent, removedContent, fullDiffLower, t) == 0) ==> w == Chore)
      && (forall t :: Score(files, addedContent, removedContent, fullDiffLower, t) <= Score(files, addedContent, removedContent, fullDiffLower, w))
      && (forall t :: t != w && Score(files, addedContent, removedContent, fullDiffLower, w) > 0
            && Score(files, addedContent, removedContent, fullDiffLower, t) == Score(files, addedContent, removedContent, fullDiffLower, w)
            ==> FirstIndex(events, w) < FirstIndex(events, t))
  {
    var events := Events(files, addedContent, removedContent, fullDiffLower);
    EventsPositive(files, addedContent, removedContent, fullDiffLower);
    NoPointsNoEvents(events);
    WinnerIsFirstMaximal(events);
    if forall t :: Score(files, addedContent, removedContent, fullDiffLower, t) == 0 {
      forall t ensures Points(events, t) == 0 {
        assert Score(files, addedContent, removedContent, fullDiffLower, t) == 0;
      }
    }
  }

  lemma NoPointsNoEvents(events: seq<Event>)
    requires AllPositive(events)
    ensures (forall t :: Points(events, t) == 0) ==> events == []
  {
    if events != [] {
      PointsPositive(events, events[0].kind);
    }
  }

  /** A type whose score beats every other type's is the one returned. */
  lemma StrictWinner(files: seq<FileChange>, addedContent: string, removedContent: string, fullDiffLower: string, w: CommitType)
    requires forall t :: t != w ==>
      Score(files, addedContent, removedContent, fullDiffLower, t) < Score(files, addedContent, removedContent, fullDiffLower, w)
    ensures TypeOf(files, addedContent, removedContent, fullDiffLower) == w
  {
    InferredTypeIsFirstMaximal(files, addedContent, removedContent, fullDiffLower);
    var v := TypeOf(files, addedContent, removedContent, fullDiffLower);
    assert Score(files, addedContent, removedContent, fullDiffLower, w) <= Score(files, addedContent, removedContent, fullDiffLower, v);
  }

  lemma {:induction false} NotContained(hay: string, needle: string)
    requires |needle| > |hay| || (|needle| == |hay| && needle != hay)
    ensures !Contains(hay, needle)
  {
    if |hay| > 0 {
      ContainsShort(hay[1..], needle);
    }
  }

  lemma {:induction false} MatchCountNone(patterns: seq<string>, hay: string)
    requires forall i :: 0 <= i < |patterns| ==> |patterns[i]| > |hay| || (|patterns[i]| == |hay| && patterns[i] != hay)
    ensures MatchCount(patterns, hay) == 0
  {
    if patterns != [] {
      MatchCountNone(patterns[..|patterns| - 1], hay);
      NotContained(hay, patterns[|patterns| - 1]);
    }
  }

  lemma KeywordsLongerThanOne(t: CommitType)
    ensures forall i :: 0 <= i < |Keywords(t)| ==> |Keywords(t)[i]| > 1
  {
    match t
    case Feat => case Fix => case Docs => case Style => case Refactor => case Perf =>
    case Test => case Build => case Ci => case Chore => case Deps =>
  }

  lemma PathPatternsMissMarkdown(t: CommitType)
    requires t != Docs
    ensures forall i :: 0 <= i < |PathPatterns(t)| ==> |PathPatterns(t)[i]| > 4
  {
    match t
    case Feat => case Fix => case Style => case Refactor => case Perf =>
    case Test => case Build => case Ci => case Chore => case Deps =>
  }

  lemma OneFileBonus(f: FileChange)
    requires f.added == 0 && f.removed == 0
    ensures Bonus(Feat, [f], "") == (if f.isNew then 15 else 0)
    ensures Bonus(Chore, [f], "") == (if f.isDeleted then 10 else 0)
    ensures forall t :: t != Feat && t != Chore ==> Bonus(t, [f], "") == 0
  {
    var files := [f];
    assert !AnyContained(FixIndicators, "") by {
      forall i | 0 <= i < |FixIndicators| ensures !Contains("", FixIndicators[i]) {
        ContainsShort("", FixIndicators[i]);
      }
    }
    assert files[..0] == [] && files[0] == f;
    assert SumAdded(files) == SumAdded([]) + f.added;
    assert SumRemoved(files) == SumRemoved([]) + f.removed;
    assert CountNew(files) == CountNew([]) + (if f.isNew then 1 else 0);
    assert CountDeleted(files) == CountDeleted([]) + (if f.isDeleted then 1 else 0);
  }

  lemma MarkdownMatches(t: CommitType)
    ensures MatchCount(PathPatterns(t), "a.md") == if t == Docs then 1 else 0
    ensures MatchCount(Keywords(t), " ") == 0
  {
    KeywordsLongerThanOne(t);
    MatchCountNone(Keywords(t), " ");
    if t == Docs {
      var pats := PathPatterns(Docs);
      assert Contains("a.md", ".md") by {
        assert ".md" <= "a.md"[1..];
      }
      MatchCountNone(pats[1..], "a.md");
      MatchCountHead(pats, "a.md");
    } else {
      PathPatternsMissMarkdown(t);
      MatchCountNone(PathPatterns(t), "a.md");
    }
  }

  lemma JoinedMarkdown(f: FileChange)
    requires f.path == "a.md"
    ensures JoinedPaths([f]) == "a.md"
  {
    assert LowerPaths([f]) == [Lower("a.md")];
    assert Lower("a.md") == "a.md";
  }

  /** Scores of a single empty file `a.md`, with no changed lines and an empty diff text. */
  lemma OneFileScores(f: FileChange, t: CommitType)
    requires f.path == "a.md" && f.added == 0 && f.removed == 0
    ensures Score([f], "", "", "", t) ==
      if t == Docs then 16
      else if t == Feat && f.isNew then 15
      else if t == Chore && f.isDeleted then 10
      else 0
  {
    var files := [f];
    ScoreFormula(files, "", "", "", t);
    var p := Priority(t);
    var m1 := MatchCount(PathPatterns(t), JoinedPaths(files));
    var m2 := MatchCount(Keywords(t), "" + " " + "");
    var bonus := Bonus(t, files, "");
    assert m1 == (if t == Docs then 1 else 0) by {
      JoinedMarkdown(f);
      MarkdownMatches(t);
    }
    assert m2 == 0 by {
      assert "" + " " + "" == " ";
      MarkdownMatches(t);
    }
    assert bonus == (if t == Feat && f.isNew then 15 else if t == Chore && f.isDeleted then 10 else 0) by {
      OneFileBonus(f);
    }
    SmallProducts(p, m1, m2);
  }

  lemma SmallProducts(p: nat, m1: nat, m2: nat)
    requires m1 <= 1 && m2 == 0
    ensures 2 * p * m1 + p * m2 == if m1 == 1 then 2 * p else 0
  {
  }

  lemma {:induction false} MatchCountHead(patterns: seq<string>, hay: string)
    requires patterns != []
    ensures MatchCount(patterns, hay) == (if Contains(hay, patterns[0]) then 1 else 0) + MatchCount(patterns[1..], hay)
  {
    if |patterns| > 1 {
      var init := patterns[..|patterns| - 1];
      MatchCountHead(init, hay);
      assert init[1..] == patterns[1..][..|patterns[1..]| - 1];
    } else {
      assert patterns[1..] == [];
    }
  }

  /**
   * A diff whose every file is new is not necessarily typed `feat`: one new,
   * empty Markdown file scores 16 for `docs` (the `.md` path pattern at
   * priority 8) against 15 for `feat`.
   */
  lemma AllNewNotAlwaysFeat()
    ensures var files := [FileChange("a.md", 0, 0, true, false)];
      && CountNew(files) == |files|
      && TypeOf(files, "", "", "") == Docs
  {
    var files := [FileChange("a.md", 0, 0, true, false)];
    forall t ensures Score(files, "", "", "", t) == if t == Docs then 16 else if t == Feat then 15 else 0 {
      OneFileScores(files[0], t);
    }
    assert files[..0] == [];
    StrictWinner(files, "", "", "", Docs);
  }

  /**
   * Likewise a diff whose every file is deleted is not necessarily typed
   * `chore`: one deleted, empty Markdown file scores 16 for `docs` against 10.
   */
  lemma AllDeletedNotAlwaysChore()
    ensures var files := [FileChange("a.md", 0, 0, false, true)];
      && CountDeleted(files) == |files|
      && TypeOf(files, "", "", "") == Docs
  {
    var files := [FileChange("a.md", 0, 0, false, true)];
    forall t ensures Score(files, "", "", "", t) == if t == Docs then 16 else if t == Chore then 10 else 0 {
      OneFileScores(files[0], t);
    }
    assert files[..0] == [];
    StrictWinner(files, "", "", "", Docs);
  }

  /** Every path pattern is non-empty, so none is found in an empty string. */
  lemma PathPatternsNonEmpty(t: CommitType)
    ensures forall i :: 0 <= i < |PathPatterns(t)| ==> |PathPatterns(t)[i]| > 0
  {
    match t
    case Feat => case Fix => case Docs => case Style => case Refactor => case Perf =>
    case Test => case Build => case Ci => case Chore => case Deps =>
  }

  /** With no file and no text nothing scores, so the type is `chore`. */
  lemma NothingScoresChore()
    ensures TypeOf([], "", "", "") == Chore
  {
    forall t ensures Score([], "", "", "", t) == 0 {
      NothingScores(t);
    }
    InferredTypeIsFirstMaximal([], "", "", "");
  }

  lemma NothingScores(t: CommitType)
    ensures Score([], "", "", "", t) == 0
  {
    ScoreFormula([], "", "", "", t);
    var paths, content := JoinedPaths([]), "" + " " + "";
    assert paths == "" && content == " ";
    PathPatternsNonEmpty(t);
    MatchCountNone(PathPatterns(t), paths);
    MarkdownMatches(t);
    var m1, m2 := MatchCount(PathPatterns(t), paths), MatchCount(Keywords(t), content);
    SmallProducts(Priority(t), m1, m2);
    NoBonusForNothing(t);
  }

  lemma NoBonusForNothing(t: CommitType)
    ensures Bonus(t, [], "") == 0
  {
    assert !AnyContained(FixIndicators, "") by {
      forall i | 0 <= i < |FixIndicators| ensures !Contains("", FixIndicators[i]) {
        ContainsShort("", FixIndicators[i]);
      }
    }
  }
}

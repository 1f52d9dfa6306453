/**
 * The line scan at the start of `RuleBasedModel._analyze_diff`: per-file
 * records plus the global lists of added and removed line bodies.
 *
 * `Scan` is the specification, a left fold of `ScanLine` over the lines;
 * `ScanDiff` is the loop the source runs, proved equal to it.
 */
module DiffParser {
  import opened Strings

  /** One touched file: the dict built at rule_based.py:129-135. */
  datatype FileChange = FileChange(path: string, added: nat, removed: nat, isNew: bool, isDeleted: bool)

  /** The three lists the loop appends to. */
  datatype ScanState = ScanState(files: seq<FileChange>, addedLines: seq<string>, removedLines: seq<string>)

  const Start := ScanState([], [], [])

  predicate IsHeader(line: string) { StartsWith(line, "diff --git") }
  predicate IsNewMode(line: string) { StartsWith(line, "new file mode") }
  predicate IsDeletedMode(line: string) { StartsWith(line, "deleted file mode") }
  predicate IsAddLine(line: string) { StartsWith(line, "+") && !StartsWith(line, "+++") }
  predicate IsRemoveLine(line: string) { StartsWith(line, "-") && !StartsWith(line, "---") }

  /** The third whitespace-separated token with one leading `a/` removed. */
  function HeaderPath(parts: seq<string>): string
    requires |parts| >= 3
  {
    if StartsWith(parts[2], "a/") then parts[2][2..] else parts[2]
  }

  function NewFile(path: string): FileChange
  {
    FileChange(path, 0, 0, false, false)
  }

  /** What one line does to the state (the `if`/`elif` chain at rule_based.py:122-149). */
  function ScanLine(st: ScanState, line: string): ScanState
  {
    var files := st.files;
    var n := |files|;
    if IsHeader(line) then
      var parts := Words(line);
      if |parts| >= 4 then st.(files := files + [NewFile(HeaderPath(parts))]) else st
    else if IsNewMode(line) then
      if n > 0 then st.(files := files[n - 1 := files[n - 1].(isNew := true)]) else st
    else if IsDeletedMode(line) then
      if n > 0 then st.(files := files[n - 1 := files[n - 1].(isDeleted := true)]) else st
    else if IsAddLine(line) then
      var files' := if n > 0 then files[n - 1 := files[n - 1].(added := files[n - 1].added + 1)] else files;
      st.(files := files', addedLines := st.addedLines + [line[1..]])
    else if IsRemoveLine(line) then
      var files' := if n > 0 then files[n - 1 := files[n - 1].(removed := files[n - 1].removed + 1)] else files;
      st.(files := files', removedLines := st.removedLines + [line[1..]])
    else st
  }

  /** The state after scanning `lines` in order. */
  function Scan(lines: seq<string>): ScanState
  {
    if lines == [] then Start else ScanLine(Scan(lines[..|lines| - 1]), lines[|lines| - 1])
  }

  lemma ScanSnoc(lines: seq<string>, line: string)
    ensures Scan(lines + [line]) == ScanLine(Scan(lines), line)
  {
    assert (lines + [line])[..|lines|] == lines;
  }

  /** The scanning loop of `_analyze_diff`. */
  method ScanDiff(lines: seq<string>) returns (st: ScanState)
    ensures st == Scan(lines)
  {
    var files: seq<FileChange> := [];
    var addedLines: seq<string> := [];
    var removedLines: seq<string> := [];
    for i := 0 to |lines|
      invariant ScanState(files, addedLines, removedLines) == Scan(lines[..i])
    {
      var line := lines[i];
      assert lines[..i + 1] == lines[..i] + [line];
      ScanSnoc(lines[..i], line);
      if StartsWith(line, "diff --git") {
        var parts := Words(line);
        if |parts| >= 4 {
          var path := parts[2];
          if StartsWith(path, "a/") {
            path := path[2..];
          }
          files := files + [FileChange(path, 0, 0, false, false)];
        }
      } else if StartsWith(line, "new file mode") {
        if |files| > 0 {
          files := files[|files| - 1 := files[|files| - 1].(isNew := true)];
        }
      } else if StartsWith(line, "deleted file mode") {
        if |files| > 0 {
          files := files[|files| - 1 := files[|files| - 1].(isDeleted := true)];
        }
      } else if StartsWith(line, "+") && !StartsWith(line, "+++") {
        addedLines := addedLines + [line[1..]];
        if |files| > 0 {
          files := files[|files| - 1 := files[|files| - 1].(added := files[|files| - 1].added + 1)];
        }
      } else if StartsWith(line, "-") && !StartsWith(line, "---") {
        removedLines := removedLines + [line[1..]];
        if |files| > 0 {
          files := files[|files| - 1 := files[|files| - 1].(removed := files[|files| - 1].removed + 1)];
        }
      }
    }
    assert lines[..|lines|] == lines;
    st := ScanState(files, addedLines, removedLines);
  }

  /**
   * A well-formed header appends exactly one record with zero counts and
   * cleared flags; a header with fewer than four tokens changes nothing.
   * Any other line leaves the list of records the same length and every
   * record's path unchanged, so it keeps counting against the previous file.
   */
  lemma {:induction false} HeaderEffect(lines: seq<string>, line: string)
    ensures var before, after := Scan(lines), Scan(lines + [line]);
      && (IsHeader(line) && |Words(line)| >= 4 ==>
            after == before.(files := before.files + [FileChange(HeaderPath(Words(line)), 0, 0, false, false)]))
      && (IsHeader(line) && |Words(line)| < 4 ==> after == before)
      && (!IsHeader(line) ==>
            && |after.files| == |before.files|
            && forall i :: 0 <= i < |before.files| ==> after.files[i].path == before.files[i].path)
  {
    ScanSnoc(lines, line);
    HeaderStep(Scan(lines), line);
  }

  /** `HeaderEffect` for one step from any state. */
  lemma HeaderStep(st: ScanState, line: string)
    ensures var after := ScanLine(st, line);
      && (IsHeader(line) && |Words(line)| >= 4 ==>
            after == st.(files := st.files + [FileChange(HeaderPath(Words(line)), 0, 0, false, false)]))
      && (IsHeader(line) && |Words(line)| < 4 ==> after == st)
      && (!IsHeader(line) ==>
            && |after.files| == |st.files|
            && forall i :: 0 <= i < |st.files| ==> after.files[i].path == st.files[i].path)
  {
    if !IsHeader(line) {
      ScanLineGrows(st, line);
    }
  }

  /**
   * A `+` line that is not `+++` is appended to the global added list and
   * bumps only the last record's `added` count; a `-` line likewise for
   * `removed`; the mode lines only set the last record's flag.
   */
  lemma {:induction false} ContentLineEffect(lines: seq<string>, line: string)
    requires |Scan(lines).files| > 0
    ensures var before, after := Scan(lines), Scan(lines + [line]);
      var n := |before.files|;
      var last := before.files[n - 1];
      && (IsAddLine(line) ==>
            after == ScanState(before.files[..n - 1] + [last.(added := last.added + 1)],
                               before.addedLines + [line[1..]], before.removedLines))
      && (IsRemoveLine(line) ==>
            after == ScanState(before.files[..n - 1] + [last.(removed := last.removed + 1)],
                               before.addedLines, before.removedLines + [line[1..]]))
      && (IsNewMode(line) ==> after == before.(files := before.files[..n - 1] + [last.(isNew := true)]))
      && (IsDeletedMode(line) ==> after == before.(files := before.files[..n - 1] + [last.(isDeleted := true)]))
  {
    ScanSnoc(lines, line);
    LineEffect(Scan(lines), line);
  }

  /** `ContentLineEffect` for one step from any state that has a record. */
  lemma LineEffect(st: ScanState, line: string)
    requires |st.files| > 0
    ensures var after, n := ScanLine(st, line), |st.files|;
      var last := st.files[n - 1];
      && (IsAddLine(line) ==>
            after == ScanState(st.files[..n - 1] + [last.(added := last.added + 1)], st.addedLines + [line[1..]], st.removedLines))
      && (IsRemoveLine(line) ==>
            after == ScanState(st.files[..n - 1] + [last.(removed := last.removed + 1)], st.addedLines, st.removedLines + [line[1..]]))
      && (IsNewMode(line) ==> after == st.(files := st.files[..n - 1] + [last.(isNew := true)]))
      && (IsDeletedMode(line) ==> after == st.(files := st.files[..n - 1] + [last.(isDeleted := true)]))
  {
    var n := |st.files|;
    var last := st.files[n - 1];
    if IsNewMode(line) {
      assert line[0] == 'n';
      UpdateLast(st.files, last.(isNew := true));
    } else if IsDeletedMode(line) {
      assert line[0] == 'd' && line[1] == 'e';
      UpdateLast(st.files, last.(isDeleted := true));
    } else if IsAddLine(line) {
      assert line[0] == '+';
      UpdateLast(st.files, last.(added := last.added + 1));
    } else if IsRemoveLine(line) {
      assert line[0] == '-';
      UpdateLast(st.files, last.(removed := last.removed + 1));
    }
  }

  lemma UpdateLast(files: seq<FileChange>, f: FileChange)
    requires files != []
    ensures files[|files| - 1 := f] == files[..|files| - 1] + [f]
  {
  }

  // ---------------------------------------------------------------------
  // Counts never decrease

  /** `b` is `a` after more lines: records kept in place, counts and flags only grow. */
  predicate Grows(a: ScanState, b: ScanState)
  {
    && |a.files| <= |b.files|
    && a.addedLines <= b.addedLines
    && a.removedLines <= b.removedLines
    && forall i :: 0 <= i < |a.files| ==>
         && b.files[i].path == a.files[i].path
         && a.files[i].added <= b.files[i].added
         && a.files[i].removed <= b.files[i].removed
         && (a.files[i].isNew ==> b.files[i].isNew)
         && (a.files[i].isDeleted ==> b.files[i].isDeleted)
  }

  lemma ScanLineGrows(st: ScanState, line: string)
    ensures Grows(st, ScanLine(st, line))
  {
  }

  /** Scanning further lines never removes a record and never lowers a count. */
  lemma {:induction false} ScanGrows(lines: seq<string>, more: seq<string>)
    ensures Grows(Scan(lines), Scan(lines + more))
    decreases |more|
  {
    if more == [] {
      assert lines + more == lines;
    } else {
      var init, last := more[..|more| - 1], more[|more| - 1];
      ScanGrows(lines, init);
      assert lines + more == (lines + init) + [last];
      ScanSnoc(lines + init, last);
      ScanLineGrows(Scan(lines + init), last);
    }
  }

  // ---------------------------------------------------------------------
  // Per-file sums against the global totals

  function SumAdded(files: seq<FileChange>): nat
  {
    if files == [] then 0 else SumAdded(files[..|files| - 1]) + files[|files| - 1].added
  }

  function SumRemoved(files: seq<FileChange>): nat
  {
    if files == [] then 0 else SumRemoved(files[..|files| - 1]) + files[|files| - 1].removed
  }

  /** `+` lines met while no record existed yet (they count globally but for no file). */
  function OrphanAdded(lines: seq<string>): nat
  {
    if lines == [] then 0
    else
      var prefix := lines[..|lines| - 1];
      OrphanAdded(prefix) + (if Scan(prefix).files == [] && IsAddLine(lines[|lines| - 1]) then 1 else 0)
  }

  function OrphanRemoved(lines: seq<string>): nat
  {
    if lines == [] then 0
    else
      var prefix := lines[..|lines| - 1];
      OrphanRemoved(prefix) + (if Scan(prefix).files == [] && IsRemoveLine(lines[|lines| - 1]) then 1 else 0)
  }

  lemma SumsAfterLastUpdate(files: seq<FileChange>, f: FileChange)
    requires |files| > 0
    ensures var n := |files|;
      && SumAdded(files[n - 1 := f]) == SumAdded(files) - files[n - 1].added + f.added
      && SumRemoved(files[n - 1 := f]) == SumRemoved(files) - files[n - 1].removed + f.removed
  {
    var n := |files|;
    assert files[n - 1 := f][..n - 1] == files[..n - 1];
  }

  lemma SumsAfterAppend(files: seq<FileChange>, f: FileChange)
    ensures SumAdded(files + [f]) == SumAdded(files) + f.added
    ensures SumRemoved(files + [f]) == SumRemoved(files) + f.removed
  {
    assert (files + [f])[..|files|] == files;
  }

  /**
   * Every global `+`/`-` line is counted by exactly one record, except the
   * ones met before the first well-formed header.
   */
  lemma {:induction false} ScanTotals(lines: seq<string>)
    ensures SumAdded(Scan(lines).files) + OrphanAdded(lines) == |Scan(lines).addedLines|
    ensures SumRemoved(Scan(lines).files) + OrphanRemoved(lines) == |Scan(lines).removedLines|
  {
    if lines != [] {
      var prefix, line := lines[..|lines| - 1], lines[|lines| - 1];
      ScanTotals(prefix);
      TotalsStep(Scan(prefix), line, OrphanAdded(prefix), OrphanRemoved(prefix));
    }
  }

  /** One line keeps the balance between per-record sums, orphans and global lists. */
  lemma TotalsStep(st: ScanState, line: string, orphanAdded: nat, orphanRemoved: nat)
    requires SumAdded(st.files) + orphanAdded == |st.addedLines|
    requires SumRemoved(st.files) + orphanRemoved == |st.removedLines|
    ensures var after := ScanLine(st, line);
      && SumAdded(after.files) + orphanAdded + (if st.files == [] && IsAddLine(line) then 1 else 0) == |after.addedLines|
      && SumRemoved(after.files) + orphanRemoved + (if st.files == [] && IsRemoveLine(line) then 1 else 0) == |after.removedLines|
  {
    if IsHeader(line) {
      assert !IsAddLine(line) && !IsRemoveLine(line) by {
        assert line[0] == 'd';
      }
      if |Words(line)| >= 4 {
        SumsAfterAppend(st.files, NewFile(HeaderPath(Words(line))));
      }
    } else {
      ContentTotalsStep(st, line, orphanAdded, orphanRemoved);
    }
  }

  lemma ContentTotalsStep(st: ScanState, line: string, orphanAdded: nat, orphanRemoved: nat)
    requires !IsHeader(line)
    requires SumAdded(st.files) + orphanAdded == |st.addedLines|
    requires SumRemoved(st.files) + orphanRemoved == |st.removedLines|
    ensures var after := ScanLine(st, line);
      && SumAdded(after.files) + orphanAdded + (if st.files == [] && IsAddLine(line) then 1 else 0) == |after.addedLines|
      && SumRemoved(after.files) + orphanRemoved + (if st.files == [] && IsRemoveLine(line) then 1 else 0) == |after.removedLines|
  {
    var n := |st.files|;
    if IsNewMode(line) {
      assert line[0] == 'n';
      if n > 0 {
        SumsAfterLastUpdate(st.files, st.files[n - 1].(isNew := true));
      }
    } else if IsDeletedMode(line) {
      assert line[0] == 'd' && line[1] == 'e';
      if n > 0 {
        SumsAfterLastUpdate(st.files, st.files[n - 1].(isDeleted := true));
      }
    } else if IsAddLine(line) {
      assert line[0] == '+';
      if n > 0 {
        SumsAfterLastUpdate(st.files, st.files[n - 1].(added := st.files[n - 1].added + 1));
      }
    } else if IsRemoveLine(line) {
      assert line[0] == '-';
      if n > 0 {
        SumsAfterLastUpdate(st.files, st.files[n - 1].(removed := st.files[n - 1].removed + 1));
      }
    }
  }

  /** No `+` line comes before the first well-formed header. */
  predicate NoAddBeforeHeader(lines: seq<string>)
  {
    forall i :: 0 <= i < |lines| && IsAddLine(lines[i]) ==> Scan(lines[..i]).files != []
  }

  predicate NoRemoveBeforeHeader(lines: seq<string>)
  {
    forall i :: 0 <= i < |lines| && IsRemoveLine(lines[i]) ==> Scan(lines[..i]).files != []
  }

  lemma {:induction false} OrphanAddedZero(lines: seq<string>)
    ensures OrphanAdded(lines) == 0 <==> NoAddBeforeHeader(lines)
  {
    if lines != [] {
      var prefix := lines[..|lines| - 1];
      OrphanAddedZero(prefix);
      assert forall i :: 0 <= i < |prefix| ==> lines[..i] == prefix[..i] && lines[i] == prefix[i];
    }
  }

  lemma {:induction false} OrphanRemovedZero(lines: seq<string>)
    ensures OrphanRemoved(lines) == 0 <==> NoRemoveBeforeHeader(lines)
  {
    if lines != [] {
      var prefix := lines[..|lines| - 1];
      OrphanRemovedZero(prefix);
      assert forall i :: 0 <= i < |prefix| ==> lines[..i] == prefix[..i] && lines[i] == prefix[i];
    }
  }

  /**
   * The per-file sums never exceed the global totals, and equal them exactly
   * when no `+` (respectively `-`) line precedes the first well-formed header.
   */
  lemma ScanTotalsExact(lines: seq<string>)
    ensures SumAdded(Scan(lines).files) <= |Scan(lines).addedLines|
    ensures SumRemoved(Scan(lines).files) <= |Scan(lines).removedLines|
    ensures SumAdded(Scan(lines).files) == |Scan(lines).addedLines| <==> NoAddBeforeHeader(lines)
    ensures SumRemoved(Scan(lines).files) == |Scan(lines).removedLines| <==> NoRemoveBeforeHeader(lines)
  {
    ScanTotals(lines);
    OrphanAddedZero(lines);
    OrphanRemovedZero(lines);
  }

  // ---------------------------------------------------------------------
  // Paths

  predicate NoSpaceIn(s: string) { forall c :: c in s ==> !IsSpace(c) }

  /** Every recorded path is a whitespace-free token of its header line. */
  lemma {:induction false} ScanPathsHaveNoSpace(lines: seq<string>)
    ensures forall i :: 0 <= i < |Scan(lines).files| ==> NoSpaceIn(Scan(lines).files[i].path)
  {
    if lines != [] {
      var prefix, line := lines[..|lines| - 1], lines[|lines| - 1];
      ScanPathsHaveNoSpace(prefix);
      if IsHeader(line) && |Words(line)| >= 4 {
        var parts := Words(line);
        assert NoSpaceIn(parts[2]);
        if StartsWith(parts[2], "a/") {
          assert forall c :: c in parts[2][2..] ==> c in parts[2];
        }
      }
    }
  }
}

/**
 * `RuleBasedModel._generate_body`: the body of a verbose message, a heading
 * and one line per file for the first five files, then a line counting the
 * files left out.
 */
module Body {
  import opened Strings
  import opened DiffParser

  /** How many files the body lists by name. */
  const MaxListed: nat := 5

  const Heading := "Changed files:"

  function Min(a: nat, b: nat): nat { if a <= b then a else b }

  /** The line for one file: new files win over deleted ones, others show their counts. */
  function FileLine(f: FileChange): string
  {
    if f.isNew then "  + " + f.path + " (new)"
    else if f.isDeleted then "  - " + f.path + " (deleted)"
    else "  * " + f.path + " (+" + NatToString(f.added) + ", -" + NatToString(f.removed) + ")"
  }

  /** The closing line for the `hidden` files past the fifth. */
  function MoreLine(hidden: nat): string
  {
    "  ... and " + NatToString(hidden) + " more files"
  }

  /** The lines for the first `count` files, in order. */
  function Listed(files: seq<FileChange>, count: nat): (lines: seq<string>)
    requires count <= |files|
    ensures |lines| == count
    ensures forall k :: 0 <= k < count ==> lines[k] == FileLine(files[k])
  {
    if count == 0 then [] else Listed(files, count - 1) + [FileLine(files[count - 1])]
  }

  /** The list `lines` the source builds before joining it. */
  function BodyLines(files: seq<FileChange>): (lines: seq<string>)
    ensures lines == [] <==> files == []
    ensures files != [] ==> |lines| == 1 + Min(|files|, MaxListed) + (if |files| > MaxListed then 1 else 0)
    ensures files != [] ==> lines[0] == Heading
    ensures files != [] ==> forall k :: 0 <= k < Min(|files|, MaxListed) ==> lines[k + 1] == FileLine(files[k])
    ensures |files| > MaxListed ==> lines[|lines| - 1] == MoreLine(|files| - MaxListed)
  {
    if files == [] then []
    else
      [Heading] + Listed(files, Min(|files|, MaxListed))
      + (if |files| > MaxListed then [MoreLine(|files| - MaxListed)] else [])
  }

  /** The body text: the lines joined with `\n`. */
  function BodyText(files: seq<FileChange>): string
  {
    Join(BodyLines(files), "\n")
  }

  /** `_generate_body`, with its loop over the first five files. */
  method GenerateBody(files: seq<FileChange>) returns (body: string)
    ensures body == BodyText(files)
  {
    var lines: seq<string> := [];
    if files != [] {
      lines := lines + [Heading];
      var shown := Min(|files|, MaxListed);
      var i := 0;
      while i < shown
        invariant 0 <= i <= shown
        invariant lines == [Heading] + Listed(files, i)
      {
        var f := files[i];
        var line;
        if f.isNew {
          line := "  + " + f.path + " (new)";
        } else if f.isDeleted {
          line := "  - " + f.path + " (deleted)";
        } else {
          line := "  * " + f.path + " (+" + NatToString(f.added) + ", -" + NatToString(f.removed) + ")";
        }
        assert line == FileLine(f);
        AppendAssoc([Heading], Listed(files, i), [line]);
        lines := lines + [line];
        i := i + 1;
      }
      if |files| > MaxListed {
        lines := lines + ["  ... and " + NatToString(|files| - MaxListed) + " more files"];
      }
      assert lines == BodyLines(files);
    }
    body := Join(lines, "\n");
  }

  // ---------------------------------------------------------------------
  // Properties

  /** The body is empty exactly when the diff touches no file. */
  lemma BodyEmptyIffNoFiles(files: seq<FileChange>)
    ensures BodyText(files) == [] <==> files == []
  {
    if files != [] {
      JoinHead(BodyLines(files), "\n");
    }
  }

  /** Each of the first five files is listed on its own line, by its path. */
  lemma BodyListsPaths(files: seq<FileChange>, i: nat)
    requires i < |files| && i < MaxListed
    ensures Contains(BodyLines(files)[i + 1], files[i].path)
  {
    assert BodyLines(files)[i + 1] == FileLine(files[i]);
    FileLineNamesPath(files[i]);
  }

  lemma FileLineNamesPath(f: FileChange)
    ensures Contains(FileLine(f), f.path)
  {
    if f.isNew {
      ContainsMiddle("  + ", f.path, " (new)");
    } else if f.isDeleted {
      ContainsMiddle("  - ", f.path, " (deleted)");
    } else {
      var tail := " (+" + NatToString(f.added) + ", -" + NatToString(f.removed) + ")";
      assert FileLine(f) == "  * " + f.path + tail;
      ContainsMiddle("  * ", f.path, tail);
    }
  }

  /** A long list ends with the number of files it leaves out, which with the five listed makes up all of them. */
  lemma BodyCountsHiddenFiles(files: seq<FileChange>)
    requires |files| > MaxListed
    ensures var lines := BodyLines(files);
      exists hidden: nat :: MaxListed + hidden == |files| && lines[|lines| - 1] == MoreLine(hidden)
  {
    var lines := BodyLines(files);
    var hidden: nat := |files| - MaxListed;
    assert lines[|lines| - 1] == MoreLine(hidden);
  }

  /** The marker after the indent tells new, deleted and modified files apart. */
  lemma FileLineMarker(f: FileChange)
    ensures FileLine(f)[2] == '+' <==> f.isNew
    ensures FileLine(f)[2] == '-' <==> !f.isNew && f.isDeleted
    ensures FileLine(f)[2] == '*' <==> !f.isNew && !f.isDeleted
  {
  }

  /** No body line breaks when no path does. */
  lemma {:induction false} BodyLinesAreLines(files: seq<FileChange>)
    requires forall k :: 0 <= k < |files| ==> '\n' !in files[k].path
    ensures forall k :: 0 <= k < |BodyLines(files)| ==> '\n' !in BodyLines(files)[k]
  {
    var lines := BodyLines(files);
    forall k | 0 <= k < |lines|
      ensures '\n' !in lines[k]
    {
      if k == 0 {
        assert lines[k] == Heading;
        PlainLines(0);
      } else if k <= Min(|files|, MaxListed) {
        assert lines[k] == FileLine(files[k - 1]);
        FileLineIsLine(files[k - 1]);
      } else {
        assert lines[k] == MoreLine(|files| - MaxListed);
        PlainLines(|files| - MaxListed);
      }
    }
  }

  lemma PlainLines(hidden: nat)
    ensures '\n' !in Heading && '\n' !in MoreLine(hidden)
  {
    assert '\n' !in NatToString(hidden);
  }

  lemma FileLineIsLine(f: FileChange)
    requires '\n' !in f.path
    ensures '\n' !in FileLine(f)
  {
    assert '\n' !in NatToString(f.added) && '\n' !in NatToString(f.removed);
  }

  /** Splitting the body at line breaks gives back the lines it was built from. */
  lemma BodyRoundTrip(files: seq<FileChange>)
    requires files != []
    requires forall k :: 0 <= k < |files| ==> '\n' !in files[k].path
    ensures SplitOn(BodyText(files), '\n') == BodyLines(files)
  {
    BodyLinesAreLines(files);
    SplitOnJoinInverse(BodyLines(files), '\n');
  }
}

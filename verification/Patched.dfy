/**
A working tree that is not the commit: the parser reads the file as it lies in the tree, while git
compares commits. A product patch, or changes kept by a rebase, can move a function in the tree away
from its lines in the commit.
*/
module Patched {
  import opened Database
  import opened CParser
  import opened ChangeDetection
  import opened DiffText
  import opened Reading
  import CGrammar
  import CRoundTrip

  /** The text of function `k` of the tree stands in the head, too, from `at` on. */
  predicate SharedAt(tree: string, k: nat, head: string, at: nat)
    requires k < |ExtractedFromFile(tree)|
  {
    var from, to := StartOffset(tree, k), EndOffset(tree, k);
    from <= to && at + (to - from) < |head| && head[at..at + (to - from) + 1] == tree[from..to + 1]
  }

  /** Its first and last line in the head. */
  function HeadStart(tree: string, k: nat, head: string, at: nat): nat
    requires k < |ExtractedFromFile(tree)| && SharedAt(tree, k, head, at)
  {
    LineAt(head, at)
  }

  function HeadEnd(tree: string, k: nat, head: string, at: nat): nat
    requires k < |ExtractedFromFile(tree)| && SharedAt(tree, k, head, at)
  {
    LineAt(head, at + (EndOffset(tree, k) - StartOffset(tree, k)))
  }

  /** Lone carriage returns in the function. */
  function LoneInside(tree: string, k: nat): int
    requires k < |ExtractedFromFile(tree)|
  {
    LoneReturns(tree[..EndOffset(tree, k)]) - LoneReturns(tree[..StartOffset(tree, k)])
  }

  /** As many line breaks are in front of the function in the tree, as the parser counts them, as in the
      head; at most so many fewer as the parser counts in the function beyond those of git. */
  predicate InStep(tree: string, k: nat, head: string, at: nat)
    requires k < |ExtractedFromFile(tree)| && SharedAt(tree, k, head, at)
  {
    var first := ExtractedFromFile(tree)[k].startLine;
    first <= HeadStart(tree, k, head, at) <= first + LoneInside(tree, k)
  }

  lemma {:induction false} SameBreaks(tree: string, from: nat, head: string, at: nat, n: nat)
    requires from + n < |tree| && at + n < |head| && head[at..at + n + 1] == tree[from..from + n + 1]
    ensures LineAt(head, at + n) - LineAt(head, at) == LineAt(tree, from + n) - LineAt(tree, from)
  {
    var part := tree[from..from + n];
    assert part == tree[from..from + n + 1][..n] == head[at..at + n + 1][..n] == head[at..at + n];
    assert tree[..from + n] == tree[..from] + part && head[..at + n] == head[..at] + part;
    CRoundTrip.NewlinesConcat(tree[..from], part);
    CRoundTrip.NewlinesConcat(head[..at], part);
  }

  lemma {:induction false} TreeLines(tree: string, k: nat)
    requires k < |ExtractedFromFile(tree)|
    ensures var span := ExtractedFromFile(tree)[k];
            && span.startLine == GitStart(tree, k) + LoneReturns(tree[..StartOffset(tree, k)])
            && span.endLine == GitEnd(tree, k) + LoneReturns(tree[..EndOffset(tree, k)])
  {
    var e := ExtentOf(tree, k);
    ExtentInText(tree, k);
    LinesApart(tree, e.start);
    LinesApart(tree, e.stop - 1);
  }

  lemma {:induction false} SharedLines(tree: string, k: nat, head: string, at: nat)
    requires k < |ExtractedFromFile(tree)| && SharedAt(tree, k, head, at)
    ensures var first, last := HeadStart(tree, k, head, at), HeadEnd(tree, k, head, at);
            && 1 <= first <= last <= |Lines(head)| && last - first == GitEnd(tree, k) - GitStart(tree, k)
  {
    hide LineAt;
    hide Lines;
    hide ExtractedFromFile;
    hide StartOffset;
    hide EndOffset;
    var from, to := StartOffset(tree, k), EndOffset(tree, k);
    SameBreaks(tree, from, head, at, to - from);
    LaterLine(head, at, at + (to - from));
  }

  lemma {:induction false} LaterLine(text: string, i: nat, j: nat)
    requires i <= j < |text|
    ensures 1 <= LineAt(text, i) <= LineAt(text, j) <= |Lines(text)|
  {
    NewlinesMonotone(text, i, j);
    LineInFile(text, j);
  }

  /** The function has as many lines in the head as in the tree, and for the parser so many more as it
      holds lone carriage returns. */
  lemma {:induction false} HeadLines(tree: string, k: nat, head: string, at: nat)
    requires k < |ExtractedFromFile(tree)| && SharedAt(tree, k, head, at)
    ensures var span := ExtractedFromFile(tree)[k];
            var first, last := HeadStart(tree, k, head, at), HeadEnd(tree, k, head, at);
            && 1 <= first <= last <= |Lines(head)|
            && span.endLine - span.startLine == (last - first) + LoneInside(tree, k)
            && (InStep(tree, k, head, at) <==> span.startLine <= first && last <= span.endLine)
  {
    hide SharedAt;
    hide ExtractedFromFile;
    hide HeadStart;
    hide HeadEnd;
    hide GitStart;
    hide GitEnd;
    hide StartOffset;
    hide EndOffset;
    hide LoneReturns;
    TreeLines(tree, k);
    SharedLines(tree, k, head, at);
  }

  /** Every edit to the head that meets the function there hits the lines reported for it. */
  ghost predicate NoHeadEditMissed(tree: string, k: nat, head: string, at: nat)
    requires k < |ExtractedFromFile(tree)| && SharedAt(tree, k, head, at)
  {
    forall oldText, script ::
      && Edits(oldText, script, head)
      && Meets(HeadStart(tree, k, head, at), HeadEnd(tree, k, head, at), Ranges(Diff(script, 0))) ==>
        Hit(ExtractedFromFile(tree)[k], Ranges(Diff(script, 0)))
  }

  /** No edit is missed exactly when the tree is in step with the head. */
  lemma {:induction false} NoHeadEditMissedExactly(tree: string, k: nat, head: string, at: nat)
    requires k < |ExtractedFromFile(tree)| && SharedAt(tree, k, head, at)
    ensures NoHeadEditMissed(tree, k, head, at) <==> InStep(tree, k, head, at)
  {
    HeadLines(tree, k, head, at);
    var span := ExtractedFromFile(tree)[k];
    var first, last := HeadStart(tree, k, head, at), HeadEnd(tree, k, head, at);
    var o := if span.startLine <= first then at + (EndOffset(tree, k) - StartOffset(tree, k)) else at;
    var oldText, script := AddingLine(head, o);
    hide Diff;
    hide Ranges;
    hide ExtractedFromFile;
    hide Edits;
    hide InStep;
    hide SharedAt;
    var ranges := Ranges(Diff(script, 0));
    assert ranges[0] == (LineAt(head, o), LineAt(head, o));
    assert Meets(first, last, ranges);
    if !InStep(tree, k, head, at) {
      assert !Hit(span, ranges);
    }
  }

  /** Without lone carriage returns, being in step is having as many line breaks in front. */
  lemma {:induction false} InStepPlainly(tree: string, k: nat, head: string, at: nat)
    requires k < |ExtractedFromFile(tree)| && SharedAt(tree, k, head, at) && NoLoneReturnBefore(tree, |tree|)
    ensures InStep(tree, k, head, at) <==> GitStart(tree, k) == HeadStart(tree, k, head, at)
  {
    var e := ExtentOf(tree, k);
    ExtentInText(tree, k);
    LinesApart(tree, e.start);
    LinesApart(tree, e.stop - 1);
  }

  /** A clean tree is in step exactly when no lone carriage return stands in front of the function. */
  lemma {:induction false} CleanTree(text: string, k: nat)
    requires k < |ExtractedFromFile(text)|
    ensures SharedAt(text, k, text, StartOffset(text, k))
    ensures HeadStart(text, k, text, StartOffset(text, k)) == GitStart(text, k)
    ensures HeadEnd(text, k, text, StartOffset(text, k)) == GitEnd(text, k)
    ensures InStep(text, k, text, StartOffset(text, k)) <==> NoLoneReturnBefore(text, StartOffset(text, k))
  {
    hide Scan;
    hide LineAt;
    hide LoneReturns;
    var e := ExtentOf(text, k);
    ExtentInText(text, k);
    ApartGrows(text, e.start, e.stop - 1);
    hide Universal;
    ReportedLinesAgreeExactly(text, k);
    hide ExtractedFromFile;
  }

  /**
  Change detection misses nothing in a function of the tree that the head shares, and is in step with: if
  its case-folded name is not reported, its lines in the head stand in the old file word for word.
  */
  lemma {:induction false} HeadChangesAreFound(oldText: string, head: string, script: seq<Hunk>, ranges: seq<Range>,
      tree: string, k: nat, at: nat)
    requires Edits(oldText, script, head) && Within(Ranges(Diff(script, 0)), ranges)
    requires k < |ExtractedFromFile(tree)| && SharedAt(tree, k, head, at) && InStep(tree, k, head, at)
    requires Lower(ExtractedFromFile(tree)[k].name) !in Folded(Overlapping(ExtractedFromFile(tree), ranges))
    ensures Verbatim(Lines(oldText), script, Lines(head), HeadStart(tree, k, head, at), HeadEnd(tree, k, head, at))
  {
    HeadLines(tree, k, head, at);
    UnreportedIsUnhit(ExtractedFromFile(tree), ranges, k);
    hide ExtractedFromFile;
    hide HeadStart;
    hide HeadEnd;
    hide InStep;
    hide SharedAt;
    hide Overlapping;
    hide Lower;
    hide Applies;
    hide Apply;
    hide Lines;
    UnhitIsVerbatim(Lines(oldText), script, ranges, HeadStart(tree, k, head, at), HeadEnd(tree, k, head, at));
  }

  // ---- A patched file that is missed ----

  const OLD := "f(){" + "\n" + "y}"
  const HEAD := "f(){" + "\n" + "x}"
  const PATCHED := "\n\nf(){\nx}"

  lemma PatchedIsExtracted()
    ensures ExtractedFromFile(PATCHED) == [FunctionSpan("f", 3, 4)]
  {
    PatchedIsRead();
    hide Universal;
    var f := CGrammar.Function([], "\n\n", "f", "", "", [], "", "\nx");
    LoneIsPrinted(f);
    CRoundTrip.ParsePrintRoundTrip(CGrammar.Cons(f, CGrammar.Nil), "");
    LoneSpans(f);
    hide *;
  }

  lemma PatchedIsRead()
    ensures Universal(PATCHED) == PATCHED
  {
    UniversalKeeps("\n\n", "f(){\nx}");
    assert PATCHED == "\n\n" + "f(){\nx}";
    assert "\n\n"[..1] == "\n" && "\n"[..0] == "" && Universal("\n") == "\n";
  }

  lemma BothTexts()
    ensures Lines(OLD) == ["f(){\n", "y}"] && Lines(HEAD) == ["f(){\n", "x}"] && PATCHED == "\n\n" + HEAD
  {
    TwoLines("f(){", "y}");
    TwoLines("f(){", "x}");
    hide Lines;
    assert OLD == "f(){" + "\n" + "y}" && HEAD == "f(){" + "\n" + "x}";
    assert "f(){" + "\n" == "f(){\n" && "\n\n" + HEAD == PATCHED;
  }

  /** The commit changes the second line of a file on top of which a patch has put two lines. The only
      function changes, stands in the tree as in the commit, and nothing is reported. */
  lemma PatchHidesChange() returns (script: seq<Hunk>)
    ensures Edits(OLD, script, HEAD) && script != []
    ensures PATCHED == "\n\n" + HEAD && ExtractedFromFile(PATCHED) == [FunctionSpan("f", 3, 4)]
    ensures Overlapping(ExtractedFromFile(PATCHED), Ranges(Diff(script, 0))) == []
  {
    script := [Hunk(1, ["y}"], ["x}"])];
    BothTexts();
    PatchedIsExtracted();
    hide Lines;
    hide ExtractedFromFile;
    hide Ranges;
    hide Diff;
    hide Overlapping;
    LoneScript(Lines(OLD), script);
    hide *;
    LoneRanges(script);
    LoneIsMissed();
  }
}

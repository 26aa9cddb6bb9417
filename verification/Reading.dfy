/**
Reading a source file: newlines are translated before the parser sees them, while git counts the
lines of the file as it is. The two agree on a position exactly when no lone carriage return stands
in front of it.
*/
module Reading {
  import opened Database
  import opened CParser
  import opened ChangeDetection
  import opened DiffText
  import Masking
  import CGrammar
  import CRoundTrip

  /** Universal newlines: `\r\n` and a lone `\r` both become `\n`. */
  function Universal(s: string): string {
    if s == "" then ""
    else
      var front, c := s[..|s| - 1], s[|s| - 1];
      if c == '\n' && front != "" && front[|front| - 1] == '\r' then Universal(front[..|front| - 1]) + "\n"
      else Universal(front) + [if c == '\r' then '\n' else c]
  }

  /** What `extract_functions_from_file` reports for a file with this text. */
  function ExtractedFromFile(text: string): seq<FunctionSpan> {
    Extracted(Universal(text))
  }

  // ---- Line numbers ----

  /** A carriage return that no newline follows. */
  predicate LoneReturnAt(s: string, p: nat) {
    p < |s| && s[p] == '\r' && !(p + 1 < |s| && s[p + 1] == '\n')
  }

  /** No carriage return in front of `o` stands alone. */
  predicate NoLoneReturnBefore(s: string, o: nat) {
    forall p :: 0 <= p < o ==> !LoneReturnAt(s, p)
  }

  function LoneReturns(s: string): nat {
    if s == "" then 0
    else
      var front, c := s[..|s| - 1], s[|s| - 1];
      if c == '\n' && front != "" && front[|front| - 1] == '\r' then LoneReturns(front[..|front| - 1])
      else LoneReturns(front) + (if c == '\r' then 1 else 0)
  }

  lemma {:induction false} LoneReturnsAdd(s: string)
    ensures Newlines(Universal(s)) == Newlines(s) + LoneReturns(s)
    decreases |s|
  {
    hide Newlines;
    if s == "" {
      NoNewlines(s);
    } else {
      var front, c := s[..|s| - 1], s[|s| - 1];
      if c == '\n' && front != "" && front[|front| - 1] == '\r' {
        var t := front[..|front| - 1];
        assert front == t + ['\r'] && s == front + ['\n'] && Universal(s) == Universal(t) + ['\n'];
        LoneReturnsAdd(t);
        NewlinesSnoc(Universal(t), '\n');
        NewlinesSnoc(t, '\r');
        NewlinesSnoc(front, '\n');
      } else {
        var d := if c == '\r' then '\n' else c;
        assert s == front + [c] && Universal(s) == Universal(front) + [d];
        LoneReturnsAdd(front);
        NewlinesSnoc(Universal(front), d);
        NewlinesSnoc(front, c);
      }
    }
  }

  lemma {:induction false} NewlinesSnoc(s: string, c: char)
    ensures Newlines(s + [c]) == Newlines(s) + (if c == '\n' then 1 else 0)
  {
    assert (s + [c])[..|s|] == s;
  }

  lemma {:induction false} CountsLoneReturns(s: string)
    ensures LoneReturns(s) == 0 <==> NoLoneReturnBefore(s, |s|)
    decreases |s|
  {
    if s != "" {
      var front, c := s[..|s| - 1], s[|s| - 1];
      if c == '\n' && front != "" && front[|front| - 1] == '\r' {
        var t := front[..|front| - 1];
        CountsLoneReturns(t);
        assert forall p :: 0 <= p < |t| ==> LoneReturnAt(t, p) == LoneReturnAt(s, p);
        assert !LoneReturnAt(s, |t|) && !LoneReturnAt(s, |t| + 1);
      } else {
        CountsLoneReturns(front);
        assert forall p :: 0 <= p < |front| ==> LoneReturnAt(front, p) == LoneReturnAt(s, p);
        assert c == '\r' ==> LoneReturnAt(s, |s| - 1);
      }
    }
  }

  // ---- Where in the file a character of the parser's text comes from ----

  /** What the parser has read when it is at `i` is the translation of the file up to here. */
  function Offset(s: string, i: nat): nat
    requires i <= |Universal(s)|
    decreases |s|
  {
    if i == |Universal(s)| then |s|
    else
      var front, c := s[..|s| - 1], s[|s| - 1];
      if c == '\n' && front != "" && front[|front| - 1] == '\r' then Offset(front[..|front| - 1], i)
      else Offset(front, i)
  }

  lemma {:induction false} OffsetSplits(s: string, i: nat)
    requires i <= |Universal(s)|
    ensures Offset(s, i) <= |s| && (i < |Universal(s)| ==> Offset(s, i) < |s|)
    ensures Universal(s[..Offset(s, i)]) == Universal(s)[..i]
    ensures 0 < Offset(s, i) < |s| ==> !(s[Offset(s, i) - 1] == '\r' && s[Offset(s, i)] == '\n')
    decreases |s|
  {
    if i == |Universal(s)| {
      assert s[..|s|] == s && Universal(s)[..i] == Universal(s);
    } else {
      var front, c := s[..|s| - 1], s[|s| - 1];
      var t := if c == '\n' && front != "" && front[|front| - 1] == '\r' then front[..|front| - 1] else front;
      OffsetSplits(t, i);
      assert s[..Offset(t, i)] == t[..Offset(t, i)];
    }
  }

  /** Counted line breaks in front of a position: the parser's are git's and the lone returns. */
  lemma {:induction false} LinesApart(s: string, i: nat)
    requires i <= |Universal(s)|
    ensures Offset(s, i) <= |s|
    ensures LineAt(Universal(s), i) == LineAt(s, Offset(s, i)) + LoneReturns(s[..Offset(s, i)])
    ensures LoneReturns(s[..Offset(s, i)]) == 0 <==> NoLoneReturnBefore(s, Offset(s, i))
  {
    OffsetSplits(s, i);
    var t := s[..Offset(s, i)];
    LoneReturnsAdd(t);
    CountsLoneReturns(t);
    assert forall p :: 0 <= p < |t| ==> LoneReturnAt(t, p) == LoneReturnAt(s, p);
  }

  lemma {:induction false} LoneReturnsGrow(s: string, i: nat)
    requires i <= |Universal(s)|
    ensures Offset(s, i) <= |s| && LoneReturns(s[..Offset(s, i)]) <= LoneReturns(s)
    decreases |s|
  {
    OffsetSplits(s, i);
    if i == |Universal(s)| {
      assert s[..|s|] == s;
    } else {
      var front, c := s[..|s| - 1], s[|s| - 1];
      var t := if c == '\n' && front != "" && front[|front| - 1] == '\r' then front[..|front| - 1] else front;
      LoneReturnsGrow(t, i);
      assert s[..Offset(t, i)] == t[..Offset(t, i)];
    }
  }

  lemma {:induction false} OffsetOfPrefix(s: string, i: nat, j: nat)
    requires i <= j <= |Universal(s)|
    ensures Offset(s, j) <= |s| && |Universal(s[..Offset(s, j)])| == j
    ensures Offset(s[..Offset(s, j)], i) == Offset(s, i) <= Offset(s, j)
    decreases |s|
  {
    OffsetSplits(s, j);
    OffsetSplits(s, i);
    if j == |Universal(s)| {
      assert s[..|s|] == s;
    } else {
      var front, c := s[..|s| - 1], s[|s| - 1];
      var t := if c == '\n' && front != "" && front[|front| - 1] == '\r' then front[..|front| - 1] else front;
      OffsetOfPrefix(t, i, j);
      assert s[..Offset(t, j)] == t[..Offset(t, j)];
    }
  }

  /** Further on, the parser is no less ahead. */
  lemma {:induction false} ApartGrows(s: string, i: nat, j: nat)
    requires i <= j <= |Universal(s)|
    ensures Offset(s, i) <= Offset(s, j) <= |s|
    ensures LoneReturns(s[..Offset(s, i)]) <= LoneReturns(s[..Offset(s, j)])
  {
    OffsetOfPrefix(s, i, j);
    var t := s[..Offset(s, j)];
    LoneReturnsGrow(t, i);
    assert t[..Offset(t, i)] == s[..Offset(s, i)];
  }

  // ---- The lines of a function, for the parser and for git ----

  function ExtentOf(text: string, k: nat): Extent
    requires k < |ExtractedFromFile(text)|
  {
    Scan(Masking.Masked(Universal(text)), 0, 0)[k]
  }

  lemma {:induction false} ExtentInText(text: string, k: nat)
    requires k < |ExtractedFromFile(text)|
    ensures ExtentOf(text, k).start < ExtentOf(text, k).stop <= |Universal(text)|
    ensures ExtractedFromFile(text)[k] == ToSpan(Universal(text), ExtentOf(text, k))
  {
    ExtractedAt(Universal(text), k);
  }

  /** Where in the file the function begins, and where its closing brace stands. */
  function StartOffset(text: string, k: nat): (o: nat)
    requires k < |ExtractedFromFile(text)|
    ensures o < |text|
  {
    ExtentInText(text, k);
    OffsetSplits(text, ExtentOf(text, k).start);
    Offset(text, ExtentOf(text, k).start)
  }

  function EndOffset(text: string, k: nat): (o: nat)
    requires k < |ExtractedFromFile(text)|
    ensures o < |text|
  {
    ExtentInText(text, k);
    OffsetSplits(text, ExtentOf(text, k).stop - 1);
    Offset(text, ExtentOf(text, k).stop - 1)
  }

  /** Its first and last line as git counts them. */
  function GitStart(text: string, k: nat): nat
    requires k < |ExtractedFromFile(text)|
  {
    LineAt(text, StartOffset(text, k))
  }

  function GitEnd(text: string, k: nat): nat
    requires k < |ExtractedFromFile(text)|
  {
    LineAt(text, EndOffset(text, k))
  }

  /** The reported lines are not in front of git's, and they are git's exactly when no lone carriage
      return stands in front of the start, or of the end. */
  lemma {:induction false} ReportedLinesAgreeExactly(text: string, k: nat)
    requires k < |ExtractedFromFile(text)|
    ensures var span := ExtractedFromFile(text)[k];
            && 1 <= GitStart(text, k) <= GitEnd(text, k) <= |Lines(text)|
            && span.startLine >= GitStart(text, k) && span.endLine >= GitEnd(text, k)
            && (span.startLine == GitStart(text, k) <==> NoLoneReturnBefore(text, StartOffset(text, k)))
            && (span.endLine == GitEnd(text, k) <==> NoLoneReturnBefore(text, EndOffset(text, k)))
  {
    var e := ExtentOf(text, k);
    ExtentInText(text, k);
    LinesApart(text, e.start);
    LinesApart(text, e.stop - 1);
    ApartGrows(text, e.start, e.stop - 1);
    NewlinesMonotone(text, StartOffset(text, k), EndOffset(text, k));
    LineInFile(text, EndOffset(text, k));
  }

  /** `script` leads from the old file to the new one. */
  ghost predicate Edits(oldText: string, script: seq<Hunk>, newText: string) {
    Applies(Lines(oldText), script) && Apply(Lines(oldText), script) == Lines(newText)
  }

  /**
  Change detection on files misses nothing in a function that no lone carriage return precedes:
  if its case-folded name is not reported, its lines in the file stand in the old file word for word.
  */
  lemma {:induction false} FileChangesAreFound(oldText: string, newText: string, script: seq<Hunk>,
      ranges: seq<Range>, k: nat)
    requires Edits(oldText, script, newText) && Within(Ranges(Diff(script, 0)), ranges)
    requires k < |ExtractedFromFile(newText)| && NoLoneReturnBefore(newText, StartOffset(newText, k))
    requires Lower(ExtractedFromFile(newText)[k].name) !in Folded(Overlapping(ExtractedFromFile(newText), ranges))
    ensures Verbatim(Lines(oldText), script, Lines(newText), GitStart(newText, k), GitEnd(newText, k))
  {
    ReportedLinesAgreeExactly(newText, k);
    UnreportedIsUnhit(ExtractedFromFile(newText), ranges, k);
    hide ExtractedFromFile;
    hide GitStart;
    hide GitEnd;
    hide StartOffset;
    hide NoLoneReturnBefore;
    hide Overlapping;
    hide Lower;
    hide Applies;
    hide Apply;
    hide Lines;
    UnhitIsVerbatim(Lines(oldText), script, ranges, GitStart(newText, k), GitEnd(newText, k));
  }

  lemma {:induction false} UnreportedIsUnhit(spans: seq<FunctionSpan>, ranges: seq<Range>, k: nat)
    requires k < |spans| && Lower(spans[k].name) !in Folded(Overlapping(spans, ranges))
    ensures !Meets(spans[k].startLine, spans[k].endLine, ranges)
  {
    hide Lower;
    assert forall i :: 0 <= i < |spans| && Hit(spans[i], ranges) ==> Lower(spans[i].name) in HitNames(spans, ranges);
    OverlappingReports(spans, ranges);
  }

  lemma {:induction false} UnhitIsVerbatim(was: seq<string>, script: seq<Hunk>, ranges: seq<Range>, first: nat,
      last: nat)
    requires Applies(was, script) && 1 <= first <= last <= |Apply(was, script)|
    requires Within(Ranges(Diff(script, 0)), ranges) && !Meets(first, last, ranges)
    ensures Verbatim(was, script, Apply(was, script), first, last)
  {
    hide BlockAt;
    hide Apply;
    hide Applies;
    if Meets(first, last, Ranges(Diff(script, 0))) {
      MoreRangesMeetMore(first, last, Ranges(Diff(script, 0)), ranges);
    } else {
      var j := UntouchedBlock(was, script, 0, first, last);
    }
  }

  // ---- Adding one line ----

  predicate NoNewline(s: string) {
    forall i :: 0 <= i < |s| ==> s[i] != '\n'
  }

  lemma {:induction false} OneLine(s: string)
    requires s != "" && NoNewline(s[..|s| - 1])
    ensures Lines(s) == [s]
    decreases |s|
  {
    var front := s[..|s| - 1];
    if front == "" {
      assert Lines(front) == [] && s == [s[0]];
    } else {
      OneLine(front);
      assert s == front + [s[|s| - 1]];
    }
  }

  /** A character more begins a line or lengthens the last one. */
  lemma {:induction false} LinesSnoc(s: string, c: char)
    ensures s == "" || s[|s| - 1] == '\n' ==> Lines(s + [c]) == Lines(s) + [[c]]
    ensures s != "" && s[|s| - 1] != '\n' ==>
              Lines(s) != [] && Lines(s + [c]) == Lines(s)[|Lines(s)| - 1 := Lines(s)[|Lines(s)| - 1] + [c]]
  {
    assert (s + [c])[..|s|] == s;
    if s != "" {
      LinesCount(s);
    }
  }

  lemma LastOfConcat(xs: seq<string>, ys: seq<string>, c: char)
    requires ys != []
    ensures var all := xs + ys;
            all[|all| - 1 := all[|all| - 1] + [c]] == xs + ys[|ys| - 1 := ys[|ys| - 1] + [c]]
  {
  }

  lemma AssocOne(xs: seq<string>, ys: seq<string>, z: string)
    ensures (xs + ys) + [z] == xs + (ys + [z])
  {
  }

  lemma {:induction false} LinesConcat(a: string, b: string)
    requires a == "" || a[|a| - 1] == '\n'
    ensures Lines(a + b) == Lines(a) + Lines(b)
    decreases |b|
  {
    if b == "" {
      assert a + b == a;
    } else {
      var front, c := b[..|b| - 1], b[|b| - 1];
      assert b == front + [c];
      LinesConcat(a, front);
      LinesConcatSnoc(a, front, c);
    }
  }

  lemma {:induction false} LinesConcatSnoc(a: string, front: string, c: char)
    requires (a == "" || a[|a| - 1] == '\n') && Lines(a + front) == Lines(a) + Lines(front)
    ensures Lines(a + (front + [c])) == Lines(a) + Lines(front + [c])
  {
    var af := a + front;
    assert a + (front + [c]) == af + [c];
    LinesSnoc(af, c);
    LinesSnoc(front, c);
    hide Lines;
    if front == "" || front[|front| - 1] == '\n' {
      assert af == "" || af[|af| - 1] == '\n';
      AssocOne(Lines(a), Lines(front), [c]);
    } else {
      assert af[|af| - 1] == front[|front| - 1];
      LastOfConcat(Lines(a), Lines(front), c);
    }
  }

  lemma {:induction false} LineStart(text: string, o: nat) returns (p: nat)
    requires o <= |text|
    ensures p <= o && (p == 0 || text[p - 1] == '\n') && LineAt(text, p) == LineAt(text, o)
    ensures forall i :: p <= i < o ==> text[i] != '\n'
  {
    p := o;
    if o > 0 && text[o - 1] != '\n' {
      p := LineStart(text, o - 1);
      assert text[..o][..o - 1] == text[..o - 1];
    }
  }

  lemma {:induction false} LineStop(text: string, o: nat) returns (q: nat)
    requires o < |text|
    ensures o < q <= |text| && (q == |text| || text[q - 1] == '\n')
    ensures forall i :: o <= i < q - 1 ==> text[i] != '\n'
    decreases |text| - o
  {
    q := o + 1;
    if text[o] != '\n' && q < |text| {
      q := LineStop(text, o + 1);
    }
  }

  lemma {:induction false} LineAround(text: string, o: nat) returns (p: nat, q: nat)
    requires o < |text|
    ensures p < q <= |text| && (p == 0 || text[p - 1] == '\n') && (q == |text| || text[q - 1] == '\n')
    ensures LineAt(text, p) == LineAt(text, o) && Lines(text[p..q]) == [text[p..q]]
  {
    p := LineStart(text, o);
    q := LineStop(text, o);
    hide *;
    assert NoNewline(text[p..q][..q - p - 1]) by {
      IsOneLine(text, p, o, q);
    }
    OneLine(text[p..q]);
  }

  lemma IsOneLine(text: string, p: nat, o: nat, q: nat)
    requires p <= o < q <= |text|
    requires forall i :: p <= i < o ==> text[i] != '\n'
    requires forall i :: o <= i < q - 1 ==> text[i] != '\n'
    ensures NoNewline(text[p..q][..q - p - 1])
  {
    var line := text[p..q][..q - p - 1];
    forall i | 0 <= i < |line| ensures line[i] != '\n' {
      assert line[i] == text[p + i];
    }
  }

  /** A text around the line on which `o` lies. */
  lemma {:induction false} AroundLine(text: string, o: nat) returns (a: string, line: string, b: string)
    requires o < |text|
    ensures |Lines(a)| == LineAt(text, o) - 1
    ensures Lines(text) == Lines(a) + ([line] + Lines(b)) && Lines(a + b) == Lines(a) + Lines(b)
  {
    var p, q := LineAround(text, o);
    hide LineAt;
    hide Lines;
    a, line, b := text[..p], text[p..q], text[q..];
    LinesInFront(text, p);
    ThreeSlices(text, p, q);
    LinesOfParts(a, line, b);
  }

  lemma ThreeSlices(text: string, p: nat, q: nat)
    requires p <= q <= |text|
    ensures text == text[..p] + (text[p..q] + text[q..])
  {
  }

  lemma {:induction false} LineThenRest(line: string, b: string)
    requires line != "" && (b == "" || line[|line| - 1] == '\n') && Lines(line) == [line]
    ensures Lines(line + b) == [line] + Lines(b)
  {
    if b == "" {
      NoLines();
      assert line + b == line;
    } else {
      hide Lines;
      LinesConcat(line, b);
    }
  }

  lemma {:induction false} LinesOfParts(a: string, line: string, b: string)
    requires (a == "" || a[|a| - 1] == '\n') && line != "" && (b == "" || line[|line| - 1] == '\n')
    requires Lines(line) == [line]
    ensures Lines(a + (line + b)) == Lines(a) + ([line] + Lines(b)) && Lines(a + b) == Lines(a) + Lines(b)
  {
    hide Lines;
    LinesConcat(a, b);
    LineThenRest(line, b);
    LinesConcat(a, line + b);
  }

  lemma {:induction false} LinesInFront(text: string, p: nat)
    requires p <= |text| && (p == 0 || text[p - 1] == '\n')
    ensures |Lines(text[..p])| == LineAt(text, p) - 1
  {
    if p > 0 {
      LinesCount(text[..p]);
    }
  }

  lemma {:induction false} NoLines()
    ensures Lines("") == []
  {
  }

  /** Adding just the line on which `o` lies. */
  lemma {:induction false} AddingLine(text: string, o: nat) returns (oldText: string, script: seq<Hunk>)
    requires o < |text|
    ensures Edits(oldText, script, text) && Ranges(Diff(script, 0)) == [(LineAt(text, o), LineAt(text, o))]
  {
    var a, line, b := AroundLine(text, o);
    oldText, script := a + b, [Hunk(|Lines(a)|, [], [line])];
    OneAdded(Lines(a), line, Lines(b), script);
    hide *;
    OneAddedRange(script);
  }

  lemma {:induction false} OneAdded(a: seq<string>, line: string, b: seq<string>, script: seq<Hunk>)
    requires script == [Hunk(|a|, [], [line])]
    ensures Applies(a + b, script) && Apply(a + b, script) == a + ([line] + b)
  {
    assert script[1..] == [] && (a + b)[|a|..] == b && (a + b)[..|a|] == a && (a + b)[|a|..|a|] == [];
    assert Applies((a + b)[|a| + 0..], script[1..]);
  }

  lemma {:induction false} OneAddedRange(script: seq<Hunk>)
    requires |script| == 1 && script[0].removed == [] && |script[0].added| == 1
    ensures Ranges(Diff(script, 0)) == [(script[0].kept + 1, script[0].kept + 1)]
  {
    RangesOfDiff(script, 0);
    assert script[1..] == [];
    assert Ranges(Diff([], script[0].kept + 1)) == [];
  }

  /** Every edit that meets a line of the function, as git counts them, hits its reported lines. */
  ghost predicate NoEditMissed(text: string, k: nat)
    requires k < |ExtractedFromFile(text)|
  {
    forall oldText, script ::
      Edits(oldText, script, text) && Meets(GitStart(text, k), GitEnd(text, k), Ranges(Diff(script, 0))) ==>
        Hit(ExtractedFromFile(text)[k], Ranges(Diff(script, 0)))
  }

  /** No edit of a function is missed exactly when no lone carriage return stands in front of it. */
  lemma {:induction false} NoEditMissedExactly(text: string, k: nat)
    requires k < |ExtractedFromFile(text)|
    ensures NoEditMissed(text, k) <==> NoLoneReturnBefore(text, StartOffset(text, k))
  {
    ReportedLinesAgreeExactly(text, k);
    hide Diff;
    hide Ranges;
    hide ExtractedFromFile;
    hide NoLoneReturnBefore;
    hide Edits;
    hide GitEnd;
    if !NoLoneReturnBefore(text, StartOffset(text, k)) {
      var oldText, script := AddingLine(text, StartOffset(text, k));
      var ranges := Ranges(Diff(script, 0));
      assert ranges[0] == (GitStart(text, k), GitStart(text, k));
      assert Meets(GitStart(text, k), GitEnd(text, k), ranges);
      assert !Hit(ExtractedFromFile(text)[k], ranges);
    }
  }

  // ---- A change that is missed ----

  lemma {:induction false} TwoLines(a: string, b: string)
    requires b != "" && NoNewline(a) && NoNewline(b)
    ensures Lines(a + "\n" + b) == [a + "\n", b]
    decreases |b|
  {
    var s, front := a + "\n" + b, b[..|b| - 1];
    assert s[..|s| - 1] == a + "\n" + front;
    if front == "" {
      assert a + "\n" + front == a + "\n";
      OneLine(a + "\n");
      assert b == [b[0]];
    } else {
      TwoLines(a, front);
      assert b == front + [b[|b| - 1]];
    }
  }

  lemma {:induction false} UniversalKeeps(s: string, t: string)
    requires '\r' !in t && (t != "" ==> t[0] != '\n')
    ensures Universal(s + t) == Universal(s) + t
    decreases |t|
  {
    if t == "" {
      assert s + t == s;
    } else {
      var front, c := t[..|t| - 1], t[|t| - 1];
      UniversalKeeps(s, front);
      assert (s + t)[..|s + t| - 1] == s + front;
      assert front != "" ==> front[|front| - 1] != '\r';
      assert t == front + [c];
    }
  }

  const LONE_OLD := "\r\rf(){" + "\n" + "y}"
  const LONE_NEW := "\r\rf(){" + "\n" + "x}"

  lemma LoneIsRead()
    ensures Universal(LONE_NEW) == "\n\nf(){\nx}"
  {
    assert LONE_NEW == "\r\r" + "f(){\nx}";
    UniversalKeeps("\r\r", "f(){\nx}");
    assert "\r\r"[..1] == "\r" && "\r"[..0] == "";
    assert Universal("\r") == "\n";
  }

  lemma LoneIsExtracted()
    ensures ExtractedFromFile(LONE_NEW) == [FunctionSpan("f", 3, 4)]
  {
    LoneIsRead();
    hide Universal;
    var f := CGrammar.Function([], "\n\n", "f", "", "", [], "", "\nx");
    var unit := CGrammar.Cons(f, CGrammar.Nil);
    LoneIsPrinted(f);
    CRoundTrip.ParsePrintRoundTrip(unit, "");
    LoneSpans(f);
    hide *;
  }

  lemma {:induction false} LoneIsPrinted(f: CGrammar.Item)
    requires f == CGrammar.Function([], "\n\n", "f", "", "", [], "", "\nx")
    ensures CGrammar.PrintItem(f) == "\n\nf(){\nx}"
    ensures CGrammar.Print(CGrammar.Cons(f, CGrammar.Nil)) + "" == "\n\nf(){\nx}"
    ensures CGrammar.Good(CGrammar.Cons(f, CGrammar.Nil)) && CRoundTrip.Plain("\n\nf(){\nx}")
  {
  }

  lemma {:induction false} LoneSpans(f: CGrammar.Item)
    requires f.Function? && f.name == "f" && CGrammar.PrintItem(f) == "\n\nf(){\nx}"
    ensures CGrammar.Spans(CGrammar.Cons(f, CGrammar.Nil), 1) == [FunctionSpan("f", 3, 4)]
  {
    hide CGrammar.PrintItem;
    var text := "\n\nf(){\nx}";
    assert SkipWs(text, 2) == 2 && SkipWs(text, 0) == 2;
    assert text[..2] == "\n\n" && Newlines("\n\n") == 2 by {
      assert "\n\n"[..1] == "\n" && "\n"[..0] == "";
    }
    NewlinesOfText();
  }

  lemma NewlinesOfText()
    ensures Newlines("\n\nf(){\nx}") == 3
  {
    CRoundTrip.NewlinesConcat("\n\n", "f(){" + ("\n" + "x}"));
    CRoundTrip.NewlinesConcat("f(){", "\n" + "x}");
    CRoundTrip.NewlinesConcat("\n", "x}");
    CRoundTrip.NewlinesConcat("\n", "\n");
    assert "\n\nf(){\nx}" == "\n\n" + ("f(){" + ("\n" + "x}")) && "\n\n" == "\n" + "\n";
    NoNewlines("f(){");
    NoNewlines("x}");
  }

  lemma {:induction false} NoNewlines(s: string)
    requires NoNewline(s)
    ensures Newlines(s) == 0
  {
    if s != "" {
      NoNewlines(s[..|s| - 1]);
    }
  }

  /** With a lone carriage return a change can be missed: here the second line of the file changes,
      which the parser takes for the fourth, and nothing is reported. */
  lemma LoneReturnHidesChange() returns (script: seq<Hunk>)
    ensures Applies(Lines(LONE_OLD), script) && Apply(Lines(LONE_OLD), script) == Lines(LONE_NEW)
    ensures script != [] && ExtractedFromFile(LONE_NEW) == [FunctionSpan("f", 3, 4)]
    ensures Overlapping(ExtractedFromFile(LONE_NEW), Ranges(Diff(script, 0))) == []
  {
    script := [Hunk(1, ["y}"], ["x}"])];
    TwoLines("\r\rf(){", "y}");
    TwoLines("\r\rf(){", "x}");
    LoneIsExtracted();
    LoneScript(Lines(LONE_OLD), script);
    hide *;
    LoneRanges(script);
    LoneIsMissed();
  }

  lemma {:induction false} LoneRanges(script: seq<Hunk>)
    requires script == [Hunk(1, ["y}"], ["x}"])]
    ensures Ranges(Diff(script, 0)) == [(2, 2)]
  {
    RangesOfDiff(script, 0);
    assert script[1..] == [];
    assert Ranges(Diff([], 2)) == [];
  }

  lemma LoneIsMissed()
    ensures Overlapping([FunctionSpan("f", 3, 4)], [(2, 2)]) == []
  {
    assert !Hit(FunctionSpan("f", 3, 4), [(2, 2)]);
    assert [FunctionSpan("f", 3, 4)][..0] == [];
  }

  lemma {:induction false} LoneScript(was: seq<string>, script: seq<Hunk>)
    requires |was| == 2 && was[1] == "y}" && script == [Hunk(1, ["y}"], ["x}"])]
    ensures Applies(was, script) && Apply(was, script) == [was[0], "x}"]
  {
    assert was[1..2] == ["y}"] && was[2..] == [] && was[..1] == [was[0]] && script[1..] == [];
    assert Applies(was[2..], script[1..]);
  }
}

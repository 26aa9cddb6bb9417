/**
From `git diff -U0` to changed functions: hunk headers become line ranges of the new file, and
the definitions whose lines meet a range are reported.
*/
module ChangeDetection {
  import opened CParser
  import Masking

  import opened Database

  type Range = (nat, nat)

  // ---- Files as lines, and edits between them ----

  /** The lines of a file, each with its newline if it has one. */
  function Lines(text: string): seq<string> {
    if text == "" then []
    else
      var front, c := text[..|text| - 1], text[|text| - 1];
      if front == "" || front[|front| - 1] == '\n' then Lines(front) + [[c]]
      else
        var lines := Lines(front);
        if lines == [] then [[c]] else lines[|lines| - 1 := lines[|lines| - 1] + [c]]
  }

  /** One hunk: lines kept since the previous one, then lines replaced. */
  datatype Hunk = Hunk(kept: nat, removed: seq<string>, added: seq<string>)

  predicate Applies(was: seq<string>, script: seq<Hunk>) {
    script == [] ||
    var h := script[0];
    && (h.removed != [] || h.added != [])
    && h.kept + |h.removed| <= |was|
    && was[h.kept..h.kept + |h.removed|] == h.removed
    && Applies(was[h.kept + |h.removed|..], script[1..])
  }

  function Apply(was: seq<string>, script: seq<Hunk>): seq<string>
    requires Applies(was, script)
  {
    if script == [] then was
    else
      var h := script[0];
      was[..h.kept] + h.added + Apply(was[h.kept + |h.removed|..], script[1..])
  }

  /** A line of the diff: a hunk header `+start,count` (the count is left out when it is 1), or
      anything else. */
  datatype DiffLine = Header(start: nat, count: Option<nat>) | Other

  /** The header git writes for a hunk whose added lines follow line `before` of the new file. */
  function HeaderOf(h: Hunk, before: nat): DiffLine {
    if h.added == [] then Header(before, Some(0))
    else Header(before + 1, if |h.added| == 1 then None else Some(|h.added|))
  }

  function Others(n: nat): seq<DiffLine> {
    if n == 0 then [] else Others(n - 1) + [Other]
  }

  /** The diff of a script, the new file having `before` lines in front of it. */
  function Diff(script: seq<Hunk>, before: nat): seq<DiffLine> {
    if script == [] then []
    else
      var h := script[0];
      [HeaderOf(h, before + h.kept)]
      + Others(|h.removed| + |h.added|)
      + Diff(script[1..], before + h.kept + |h.added|)
  }

  // ---- diff_new_line_ranges ----

  function RangeOf(start: nat, count: Option<nat>): Range {
    var n := if count.None? then 1 else count.value;
    if n == 0 then
      var anchor := if start < 1 then 1 else start;
      (anchor, anchor)
    else (start, start + n - 1)
  }

  function Ranges(lines: seq<DiffLine>): seq<Range> {
    if lines == [] then []
    else
      var last := lines[|lines| - 1];
      Ranges(lines[..|lines| - 1])
      + (if last.Header? then [RangeOf(last.start, last.count)] else [])
  }

  lemma {:induction false} RangesConcat(a: seq<DiffLine>, b: seq<DiffLine>)
    ensures Ranges(a + b) == Ranges(a) + Ranges(b)
    decreases |b|
  {
    if b == [] {
      assert a + b == a;
    } else {
      RangesConcat(a, b[..|b| - 1]);
      assert (a + b)[..|a + b| - 1] == a + b[..|b| - 1];
    }
  }

  lemma {:induction false} OthersHaveNoRange(n: nat)
    ensures Ranges(Others(n)) == []
  {
    if n > 0 {
      OthersHaveNoRange(n - 1);
      assert Others(n)[..|Others(n)| - 1] == Others(n - 1);
    }
  }

  /** The ranges of a script, hunk by hunk. */
  lemma RangesOfDiff(script: seq<Hunk>, before: nat)
    requires script != []
    ensures var h := script[0];
            Ranges(Diff(script, before)) ==
            [RangeOf(HeaderOf(h, before + h.kept).start, HeaderOf(h, before + h.kept).count)]
            + Ranges(Diff(script[1..], before + h.kept + |h.added|))
  {
    var h := script[0];
    var header := HeaderOf(h, before + h.kept);
    var others := Others(|h.removed| + |h.added|);
    var rest := Diff(script[1..], before + h.kept + |h.added|);
    assert Diff(script, before) == [header] + others + rest;
    assert [header][..0] == [] && Ranges([header]) == [RangeOf(header.start, header.count)];
    hide Diff;
    hide Ranges;
    hide RangeOf;
    hide Others;
    RangesConcat([header] + others, rest);
    RangesConcat([header], others);
    OthersHaveNoRange(|h.removed| + |h.added|);
  }

  // ---- _overlapping_functions ----

  function LowerChar(c: char): char {
    if 'A' <= c <= 'Z' then c + 32 as char else c
  }

  function Lower(s: string): string {
    seq(|s|, i requires 0 <= i < |s| => LowerChar(s[i]))
  }

  /** Two letters are the same but for their case. */
  predicate SameLetter(a: char, b: char) {
    a == b || ('A' <= a <= 'Z' && b as int == a as int + 32) || ('A' <= b <= 'Z' && a as int == b as int + 32)
  }

  /** Names are folded alike exactly when they differ in the case of letters only. */
  lemma FoldsAlikeExactly(a: string, b: string)
    ensures Lower(a) == Lower(b) <==> |a| == |b| && forall i :: 0 <= i < |a| ==> SameLetter(a[i], b[i])
  {
    if Lower(a) == Lower(b) {
      assert |Lower(a)| == |a| && |Lower(b)| == |b|;
      forall i | 0 <= i < |a| ensures SameLetter(a[i], b[i]) {
        assert Lower(a)[i] == Lower(b)[i];
      }
    }
  }

  predicate Meets(first: nat, last: nat, ranges: seq<Range>) {
    exists k :: 0 <= k < |ranges| && ranges[k].0 <= last && ranges[k].1 >= first
  }

  predicate Hit(span: FunctionSpan, ranges: seq<Range>) {
    Meets(span.startLine, span.endLine, ranges)
  }

  /** The first hit span of each case-folded name, in source order. */
  function Overlapping(spans: seq<FunctionSpan>, ranges: seq<Range>): seq<string> {
    if spans == [] then []
    else
      var front, span := spans[..|spans| - 1], spans[|spans| - 1];
      Overlapping(front, ranges)
      + (if Hit(span, ranges) && Lower(span.name) !in HitNames(front, ranges) then [span.name] else [])
  }

  function HitNames(spans: seq<FunctionSpan>, ranges: seq<Range>): set<string> {
    set k | 0 <= k < |spans| && Hit(spans[k], ranges) :: Lower(spans[k].name)
  }

  method OverlappingFunctions(spans: seq<FunctionSpan>, ranges: seq<Range>) returns (names: seq<string>)
    ensures names == Overlapping(spans, ranges)
  {
    hide Hit;
    hide Lower;
    names := [];
    var seen: set<string> := {};
    for i := 0 to |spans|
      invariant names == Overlapping(spans[..i], ranges)
      invariant seen == HitNames(spans[..i], ranges)
    {
      var span := spans[i];
      ghost var next := spans[..i + 1];
      assert next[..i] == spans[..i] && next[i] == span;
      HitNamesStep(next, ranges);
      if Lower(span.name) in seen {
        continue;
      }
      if Hit(span, ranges) {
        seen := seen + {Lower(span.name)};
        names := names + [span.name];
      }
    }
    assert spans[..|spans|] == spans;
  }

  lemma HitNamesStep(spans: seq<FunctionSpan>, ranges: seq<Range>)
    requires spans != []
    ensures var front, span := spans[..|spans| - 1], spans[|spans| - 1];
            HitNames(spans, ranges) ==
            HitNames(front, ranges) + (if Hit(span, ranges) then {Lower(span.name)} else {})
  {
    hide Hit;
    hide Lower;
    var front := spans[..|spans| - 1];
    forall k | 0 <= k < |front| ensures front[k] == spans[k] {
    }
  }

  function Folded(names: seq<string>): set<string> {
    set k | 0 <= k < |names| :: Lower(names[k])
  }

  /** A case-folded name is reported exactly when a span of that name meets a range, and once. */
  lemma {:induction false} OverlappingReports(spans: seq<FunctionSpan>, ranges: seq<Range>)
    ensures Folded(Overlapping(spans, ranges)) == HitNames(spans, ranges)
    ensures forall i, j :: 0 <= i < j < |Overlapping(spans, ranges)| ==>
              Lower(Overlapping(spans, ranges)[i]) != Lower(Overlapping(spans, ranges)[j])
    decreases |spans|
  {
    hide Hit;
    hide Lower;
    if spans != [] {
      var front, span := spans[..|spans| - 1], spans[|spans| - 1];
      OverlappingReports(front, ranges);
      HitNamesStep(spans, ranges);
      var names, all := Overlapping(front, ranges), Overlapping(spans, ranges);
      forall i | 0 <= i < |names| ensures Lower(names[i]) in HitNames(front, ranges) {
        assert Lower(names[i]) in Folded(names);
      }
      if all != names {
        assert all[..|names|] == names;
        FoldedStep(all);
      }
    }
  }

  lemma FoldedStep(names: seq<string>)
    requires names != []
    ensures Folded(names) == Folded(names[..|names| - 1]) + {Lower(names[|names| - 1])}
  {
    hide Lower;
    var front := names[..|names| - 1];
    forall k | 0 <= k < |front| ensures front[k] == names[k] {
    }
  }

  // ---- Nothing is missed ----

  lemma MeetsTail(first: nat, last: nat, ranges: seq<Range>)
    requires ranges != []
    ensures Meets(first, last, ranges) <==>
            (ranges[0].0 <= last && ranges[0].1 >= first) || Meets(first, last, ranges[1..])
  {
    if k :| 0 <= k < |ranges| && ranges[k].0 <= last && ranges[k].1 >= first {
      assert k > 0 ==> ranges[1..][k - 1] == ranges[k];
    }
  }

  /** Lines first..last of the new file are those of the old one behind its line `k`. */
  predicate BlockAt(was: seq<string>, k: nat, now: seq<string>, first: nat, last: nat) {
    && 1 <= first <= last <= |now|
    && k + (last - first + 1) <= |was|
    && was[k..k + (last - first + 1)] == now[first - 1..last]
  }

  /** How far a line of the new file, which no hunk touches, stood further down in the old one: by the
      lines removed less the lines added in front of it. */
  function Shift(script: seq<Hunk>, before: nat, line: nat): int {
    if script == [] || line <= before + script[0].kept then 0
    else
      var h := script[0];
      |h.removed| - |h.added| + Shift(script[1..], before + h.kept + |h.added|, line)
  }

  /** Lines first..last of the new file stand in the old one, word for word, where the hunks in front of
      them put them. */
  predicate Verbatim(was: seq<string>, script: seq<Hunk>, now: seq<string>, first: nat, last: nat) {
    var k := first - 1 + Shift(script, 0, first);
    k >= 0 && BlockAt(was, k, now, first, last)
  }

  lemma BlockShift(was: seq<string>, now: seq<string>, k: nat, first: nat, last: nat, w: nat, n: nat,
      was': seq<string>, now': seq<string>)
    requires w <= |was| && n <= |now| && was[w..] == was' && now[n..] == now'
    requires BlockAt(was', k, now', first, last)
    ensures BlockAt(was, k + w, now, first + n, last + n)
  {
    SliceOfTail(was, w, k, k + last - first + 1);
    SliceOfTail(now, n, first - 1, last);
  }

  lemma SliceOfTail(s: seq<string>, w: nat, a: nat, b: nat)
    requires w <= |s| && a <= b <= |s| - w
    ensures s[w..][a..b] == s[a + w..b + w]
  {
  }

  lemma BlockKept(was: seq<string>, now: seq<string>, kept: nat, first: nat, last: nat)
    requires kept <= |was| && kept <= |now| && was[..kept] == now[..kept]
    requires 1 <= first <= last <= kept
    ensures BlockAt(was, first - 1, now, first, last)
  {
    assert was[first - 1..last] == was[..kept][first - 1..last];
    assert now[first - 1..last] == now[..kept][first - 1..last];
  }

  lemma {:induction false} ApplyShape(was: seq<string>, script: seq<Hunk>)
    requires Applies(was, script) && script != []
    ensures var h, result := script[0], Apply(was, script);
            && h.kept + |h.removed| <= |was| && h.kept + |h.added| <= |result|
            && Applies(was[h.kept + |h.removed|..], script[1..])
            && result[..h.kept] == was[..h.kept]
            && result[h.kept + |h.added|..] == Apply(was[h.kept + |h.removed|..], script[1..])
  {
  }

  /** Lines that a diff misses lie in front of its first hunk's own lines, or behind them. */
  lemma FirstHunkMissed(script: seq<Hunk>, before: nat, first: nat, last: nat)
    requires script != [] && before < first <= last
    requires !Meets(first, last, Ranges(Diff(script, before)))
    ensures var h := script[0];
            && (last <= before + h.kept || first > before + h.kept + |h.added|)
            && !Meets(first, last, Ranges(Diff(script[1..], before + h.kept + |h.added|)))
  {
    hide Diff;
    hide Ranges;
    hide Meets;
    var ranges := Ranges(Diff(script, before));
    RangesOfDiff(script, before);
    MeetsTail(first, last, ranges);
    assert ranges[1..] == Ranges(Diff(script[1..], before + script[0].kept + |script[0].added|));
  }

  lemma {:induction false} WholeIsKept(was: seq<string>, first: nat, last: nat)
    requires 1 <= first <= last <= |Apply(was, [])|
    ensures BlockAt(was, first - 1, Apply(was, []), first, last)
  {
    BlockKept(was, was, |was|, first, last);
  }

  lemma {:induction false} ShiftUnfolds(script: seq<Hunk>, before: nat, line: nat)
    ensures script == [] || line <= before + script[0].kept ==> Shift(script, before, line) == 0
    ensures script != [] && line > before + script[0].kept ==>
              var h := script[0];
              Shift(script, before, line) ==
              |h.removed| - |h.added| + Shift(script[1..], before + h.kept + |h.added|, line)
  {
  }

  lemma {:induction false} UntouchedBlock(was: seq<string>, script: seq<Hunk>, before: nat, first: nat, last: nat)
    returns (k: nat)
    requires Applies(was, script)
    requires before < first <= last <= before + |Apply(was, script)|
    requires !Meets(first, last, Ranges(Diff(script, before)))
    ensures BlockAt(was, k, Apply(was, script), first - before, last - before)
    ensures k == first - before - 1 + Shift(script, before, first)
    decreases |script|
  {
    ShiftUnfolds(script, before, first);
    hide *;
    var a, b := first - before, last - before;
    if script == [] {
      k := a - 1;
      WholeIsKept(was, a, b);
    } else {
      var h := script[0];
      var w, n := h.kept + |h.removed|, h.kept + |h.added|;
      FirstHunkMissed(script, before, first, last);
      ApplyShape(was, script);
      var now := Apply(was, script);
      if b <= h.kept {
        k := a - 1;
        BlockKept(was, now, h.kept, a, b);
      } else {
        var k' := UntouchedBlock(was[w..], script[1..], before + n, first, last);
        BlockShift(was, now, k', a - n, b - n, w, n, was[w..], now[n..]);
        k := k' + w;
      }
    }
  }

  /** Lines of the new file in front of what hunk `i` adds. */
  function Before(script: seq<Hunk>, i: nat, before: nat): nat
    requires i < |script|
  {
    if i == 0 then before + script[0].kept
    else Before(script[1..], i - 1, before + script[0].kept + |script[0].added|)
  }

  /** Hunk `i` adds a line among first..last, or deletes directly behind one of them; a deletion
      at the top of the file counts as behind line 1. */
  predicate Touches(script: seq<Hunk>, i: nat, before: nat, first: nat, last: nat)
    requires i < |script|
  {
    var p := Before(script, i, before);
    if script[i].added == [] then first <= p <= last || (p == 0 && first <= 1 <= last)
    else p < last && p + |script[i].added| >= first
  }

  /** Which line ranges are reported, in terms of the edits alone. */
  lemma {:induction false} MeetsExactly(script: seq<Hunk>, before: nat, first: nat, last: nat)
    requires 1 <= first
    ensures Meets(first, last, Ranges(Diff(script, before))) <==>
            exists i :: 0 <= i < |script| && Touches(script, i, before, first, last)
    decreases |script|
  {
    if script != [] {
      var ranges := Ranges(Diff(script, before));
      var before' := before + script[0].kept + |script[0].added|;
      RangesOfDiff(script, before);
      MeetsExactly(script[1..], before', first, last);
      assert ranges[1..] == Ranges(Diff(script[1..], before'));
      assert Touches(script, 0, before, first, last) <==> ranges[0].0 <= last && ranges[0].1 >= first;
      MeetsTail(first, last, ranges);
      forall i | 0 <= i < |script| - 1
        ensures Touches(script[1..], i, before', first, last) == Touches(script, i + 1, before, first, last)
      {
      }
      if i :| 0 <= i < |script| && Touches(script, i, before, first, last) {
        assert i > 0 ==> Touches(script[1..], i - 1, before', first, last);
      }
    }
  }

  // ---- The extractor's spans lie in the file ----

  lemma {:induction false} LinesCount(text: string)
    requires text != ""
    ensures |Lines(text)| == Newlines(text) + (if text[|text| - 1] == '\n' then 0 else 1)
  {
    var front := text[..|text| - 1];
    if front != "" {
      LinesCount(front);
    }
  }

  lemma {:induction false} LinesGrow(text: string, i: nat)
    requires i <= |text|
    ensures |Lines(text[..i])| <= |Lines(text)|
    decreases |text|
  {
    if i < |text| {
      var front := text[..|text| - 1];
      LinesGrow(front, i);
      assert front[..i] == text[..i];
    } else {
      assert text[..i] == text;
    }
  }

  lemma {:induction false} LineInFile(text: string, i: nat)
    requires i < |text|
    ensures LineAt(text, i) <= |Lines(text)|
  {
    var t := text[..i + 1];
    assert t[..i] == text[..i];
    LinesCount(t);
    LinesGrow(text, i + 1);
  }

  lemma {:induction false} SpansInFile(text: string, k: nat)
    requires k < |Extracted(text)|
    ensures 1 <= Extracted(text)[k].startLine <= Extracted(text)[k].endLine <= |Lines(text)|
  {
    SpansInOrder(text);
    var extents := Scan(Masking.Masked(text), 0, 0);
    ScanInOrder(Masking.Masked(text), 0, 0);
    LineInFile(text, extents[k].stop - 1);
  }

  /**
  Change detection misses nothing: when git describes the step from the old to the new file by
  the hunks of `script`, a function whose case-folded name is not reported stands in the old
  file word for word.
  */
  lemma {:induction false} ChangeDetectionMissesNothing(oldText: string, newText: string, script: seq<Hunk>, k: nat)
    requires Applies(Lines(oldText), script) && Apply(Lines(oldText), script) == Lines(newText)
    requires k < |Extracted(newText)|
    requires Lower(Extracted(newText)[k].name) !in
             Folded(Overlapping(Extracted(newText), Ranges(Diff(script, 0))))
    ensures Verbatim(Lines(oldText), script, Lines(newText), Extracted(newText)[k].startLine,
                     Extracted(newText)[k].endLine)
  {
    hide Extracted;
    hide Lower;
    hide Overlapping;
    hide Lines;
    hide BlockAt;
    hide Apply;
    hide Applies;
    var spans := Extracted(newText);
    var ranges := Ranges(Diff(script, 0));
    OverlappingReports(spans, ranges);
    SpansInFile(newText, k);
    assert !Hit(spans[k], ranges);
    var j := UntouchedBlock(Lines(oldText), script, 0, spans[k].startLine, spans[k].endLine);
  }
}

/** The text `git diff -U0` writes, and how its hunk headers are found again. */
module DiffText {
  import opened Database
  import opened ChangeDetection

  // ---- Numbers ----

  predicate IsDigit(c: char) {
    '0' <= c <= '9'
  }

  function Number(n: nat): string {
    if n < 10 then [DigitChar(n)] else Number(n / 10) + [DigitChar(n % 10)]
  }

  function DigitValue(c: char): nat
    requires IsDigit(c)
  {
    c as int - '0' as int
  }

  function Value(s: string): nat
    requires AllDigits(s)
  {
    if s == "" then 0 else Value(s[..|s| - 1]) * 10 + DigitValue(s[|s| - 1])
  }

  predicate AllDigits(s: string) {
    forall i :: 0 <= i < |s| ==> IsDigit(s[i])
  }

  function DigitChar(d: nat): (c: char)
    requires d < 10
    ensures IsDigit(c) && DigitValue(c) == d
  {
    ('0' as int + d) as char
  }

  lemma {:induction false} ValueSnoc(s: string, c: char)
    requires AllDigits(s) && IsDigit(c)
    ensures AllDigits(s + [c]) && Value(s + [c]) == Value(s) * 10 + DigitValue(c)
  {
    assert (s + [c])[..|s|] == s;
  }

  lemma {:induction false} NumberIsRead(n: nat)
    ensures Number(n) != "" && AllDigits(Number(n)) && Value(Number(n)) == n
  {
    var front := if n < 10 then "" else Number(n / 10);
    if n >= 10 {
      NumberIsRead(n / 10);
    }
    assert Number(n) == front + [DigitChar(n % 10)];
    ValueSnoc(front, DigitChar(n % 10));
  }

  // ---- One line ----

  /** How many digits the string begins with. */
  function Digits(s: string): (n: nat)
    ensures n <= |s| && forall k :: 0 <= k < n ==> IsDigit(s[k])
  {
    if s != "" && IsDigit(s[0]) then 1 + Digits(s[1..]) else 0
  }

  /** The length of an optional `,count` at the beginning. */
  function CountLength(s: string): (n: nat)
    ensures n <= |s| && n != 1 && forall k :: 1 <= k < n ==> IsDigit(s[k])
  {
    if s != "" && s[0] == ',' && Digits(s[1..]) > 0 then 1 + Digits(s[1..]) else 0
  }

  predicate Starts(s: string, word: string) {
    |word| <= |s| && s[..|word|] == word
  }

  /** The new side of a hunk header: a start, an optional count, and the closing marks. */
  function ParseNewSide(s: string): DiffLine {
    var n := Digits(s);
    var m := CountLength(s[n..]);
    if n == 0 || !Starts(s[n + m..], " @@") then Other
    else Header(Value(s[..n]), if m == 0 then None else Some(Value(s[n..][1..m])))
  }

  /** The new side of the hunk header that the line begins with. */
  function ParseLine(line: string): DiffLine {
    if !Starts(line, "@@ -") then Other
    else
      var s := line[4..];
      var n := Digits(s);
      var t := s[n..][CountLength(s[n..])..];
      if n == 0 || !Starts(t, " +") then Other else ParseNewSide(t[2..])
  }

  function Count(count: Option<nat>): string {
    if count.None? then "" else "," + Number(count.value)
  }

  function NewSide(start: nat, count: Option<nat>, rest: string): string {
    Number(start) + (Count(count) + (" @@" + rest))
  }

  /** A hunk header, with whatever follows in the line. */
  function HeaderText(oldStart: nat, oldCount: Option<nat>, start: nat, count: Option<nat>, rest: string): string {
    "@@ -" + (Number(oldStart) + (Count(oldCount) + (" +" + NewSide(start, count, rest))))
  }

  lemma Parts(a: string, b: string)
    ensures (a + b)[|a|..] == b && (a + b)[..|a|] == a && Starts(a + b, a)
  {
  }

  lemma {:induction false} DigitsOf(s: string, rest: string)
    requires forall k :: 0 <= k < |s| ==> IsDigit(s[k])
    requires rest != "" ==> !IsDigit(rest[0])
    ensures Digits(s + rest) == |s|
    decreases |s|
  {
    if s == "" {
      assert s + rest == rest;
    } else {
      DigitsOf(s[1..], rest);
      assert (s + rest)[1..] == s[1..] + rest;
    }
  }

  lemma {:induction false} NumberComes(n: nat, rest: string)
    requires rest != "" ==> !IsDigit(rest[0])
    ensures Digits(Number(n) + rest) == |Number(n)| > 0
    ensures (Number(n) + rest)[|Number(n)|..] == rest && (Number(n) + rest)[..|Number(n)|] == Number(n)
    ensures Value(Number(n)) == n
  {
    NumberIsRead(n);
    DigitsOf(Number(n), rest);
  }

  lemma CountComes(count: Option<nat>, rest: string)
    requires rest != "" && rest[0] == ' '
    ensures var s := Count(count) + rest;
            && CountLength(s) == |Count(count)| && s[|Count(count)|..] == rest && !IsDigit(s[0])
            && (count.Some? <==> CountLength(s) > 0)
            && (count.Some? ==> Value(s[1..|Count(count)|]) == count.value)
  {
    if count.Some? {
      var n := Number(count.value);
      NumberComes(count.value, rest);
      NumberIsRead(count.value);
      hide Number;
      hide Digits;
      hide Value;
      var s := Count(count) + rest;
      assert s == "," + (n + rest);
      assert s[1..] == n + rest && s[1..|Count(count)|] == n;
    } else {
      assert Count(count) + rest == rest;
    }
  }

  lemma NewSideIsRead(start: nat, count: Option<nat>, rest: string)
    ensures ParseNewSide(NewSide(start, count, rest)) == Header(start, count)
  {
    var tail := " @@" + rest;
    CountComes(count, tail);
    NumberComes(start, Count(count) + tail);
    Parts(" @@", rest);
    hide Number;
    hide Count;
    var s := NewSide(start, count, rest);
    assert s[|Number(start)|..] == Count(count) + tail;
    assert s[|Number(start)| + |Count(count)|..] == tail;
  }

  /** Reading back a header gives its new side. */
  lemma HeaderIsRead(oldStart: nat, oldCount: Option<nat>, start: nat, count: Option<nat>, rest: string)
    ensures ParseLine(HeaderText(oldStart, oldCount, start, count, rest)) == Header(start, count)
  {
    var side := " +" + NewSide(start, count, rest);
    CountComes(oldCount, side);
    NumberComes(oldStart, Count(oldCount) + side);
    NewSideIsRead(start, count, rest);
    Parts("@@ -", Number(oldStart) + (Count(oldCount) + side));
    Parts(" +", NewSide(start, count, rest));
    hide Number;
    hide Count;
    hide NewSide;
    hide ParseNewSide;
    hide Starts;
  }

  // ---- Lines ----

  /** Where `str.splitlines` breaks. */
  predicate Breaks(c: char) {
    '\n' <= c <= '\r' || '\U{1c}' <= c <= '\U{1e}' || c == '\U{85}' || c == '\U{2028}' || c == '\U{2029}'
  }

  function LineEnd(s: string, i: nat): (r: nat)
    requires i <= |s|
    ensures i <= r <= |s| && (forall k :: i <= k < r ==> !Breaks(s[k])) && (r < |s| ==> Breaks(s[r]))
    decreases |s| - i
  {
    if i < |s| && !Breaks(s[i]) then LineEnd(s, i + 1) else i
  }

  /** Behind the break at `i`. */
  function PastBreak(s: string, i: nat): (r: nat)
    requires i < |s|
    ensures i < r <= |s|
  {
    if s[i] == '\r' && i + 1 < |s| && s[i + 1] == '\n' then i + 2 else i + 1
  }

  function SplitLines(s: string): seq<string>
    decreases |s|
  {
    if s == "" then []
    else
      var i := LineEnd(s, 0);
      if i == |s| then [s] else [s[..i]] + SplitLines(s[PastBreak(s, i)..])
  }

  predicate WholeLines(s: string) {
    s != "" ==> s[|s| - 1] == '\n'
  }

  lemma {:induction false} SplitFirst(s: string)
    requires s != "" && LineEnd(s, 0) < |s|
    ensures SplitLines(s) == [s[..LineEnd(s, 0)]] + SplitLines(s[PastBreak(s, LineEnd(s, 0))..])
  {
  }

  lemma SliceConcat(a: string, b: string, i: nat)
    requires i <= |a|
    ensures (a + b)[..i] == a[..i] && (a + b)[i..] == a[i..] + b
  {
  }

  lemma Regroup(line: string, x: seq<string>, y: seq<string>)
    ensures [line] + (x + y) == ([line] + x) + y
  {
  }

  lemma {:induction false} SplitConcat(a: string, b: string)
    requires WholeLines(a)
    ensures SplitLines(a + b) == SplitLines(a) + SplitLines(b)
    decreases |a|
  {
    if a == "" {
      assert a + b == b;
    } else {
      FirstLineSame(a, b);
      SplitFirst(a);
      SplitFirst(a + b);
      var i := LineEnd(a, 0);
      var n := PastBreak(a, i);
      SplitConcat(a[n..], b);
      SliceConcat(a, b, i);
      SliceConcat(a, b, n);
      hide *;
      Regroup(a[..i], SplitLines(a[n..]), SplitLines(b));
    }
  }

  lemma {:induction false} FirstLineSame(a: string, b: string)
    requires a != "" && WholeLines(a)
    ensures LineEnd(a, 0) < |a| && LineEnd(a + b, 0) == LineEnd(a, 0)
    ensures PastBreak(a + b, LineEnd(a, 0)) == PastBreak(a, LineEnd(a, 0))
    ensures WholeLines(a[PastBreak(a, LineEnd(a, 0))..])
  {
    assert Breaks(a[|a| - 1]);
    LineEndSame(a, b, 0);
  }

  lemma {:induction false} LineEndSame(a: string, b: string, i: nat)
    requires i <= |a| && LineEnd(a, i) < |a|
    ensures LineEnd(a + b, i) == LineEnd(a, i)
    decreases |a| - i
  {
    if !Breaks(a[i]) {
      LineEndSame(a, b, i + 1);
    }
  }

  // ---- diff_new_line_ranges ----

  function Parsed(lines: seq<string>): seq<DiffLine> {
    seq(|lines|, k requires 0 <= k < |lines| => ParseLine(lines[k]))
  }

  /** The ranges that are read from the text of a diff. */
  function TextRanges(text: string): seq<Range> {
    Ranges(Parsed(SplitLines(text)))
  }

  /** `diff_new_line_ranges`. */
  method DiffNewLineRanges(text: string) returns (ranges: seq<Range>)
    ensures ranges == TextRanges(text)
  {
    hide ParseLine;
    var lines := SplitLines(text);
    ranges := [];
    for i := 0 to |lines|
      invariant ranges == Ranges(Parsed(lines[..i]))
    {
      ghost var next := Parsed(lines[..i + 1]);
      assert next[..i] == Parsed(lines[..i]);
      match ParseLine(lines[i])
      case Header(start, count) =>
        var n := if count.None? then 1 else count.value;
        if n == 0 {
          var anchor := if start < 1 then 1 else start;
          ranges := ranges + [(anchor, anchor)];
        } else {
          ranges := ranges + [(start, start + n - 1)];
        }
      case Other =>
    }
    assert lines[..|lines|] == lines;
  }

  // ---- The text of a script ----

  /** What a header says besides the new side: the old side, and the section it is in. */
  datatype Side = Side(start: nat, count: Option<nat>, section: string)

  function SignedLine(sign: char, line: string): string {
    [sign] + line + (if WholeLines(line) && line != "" then "" else "\n\\ No newline at end of file\n")
  }

  function SignedLines(sign: char, lines: seq<string>): string {
    if lines == [] then "" else SignedLine(sign, lines[0]) + SignedLines(sign, lines[1..])
  }

  function HunkText(h: Hunk, before: nat, side: Side): string {
    var header := HeaderOf(h, before + h.kept);
    HeaderText(side.start, side.count, header.start, header.count,
               side.section + "\n" + SignedLines('-', h.removed) + SignedLines('+', h.added))
  }

  /** The hunks of a script, as git writes them. */
  function ScriptText(script: seq<Hunk>, before: nat, sides: seq<Side>): string
    requires |sides| == |script|
  {
    if script == [] then ""
    else
      HunkText(script[0], before, sides[0])
      + ScriptText(script[1..], before + script[0].kept + |script[0].added|, sides[1..])
  }

  lemma {:induction false} SignedLinesWhole(sign: char, lines: seq<string>)
    ensures WholeLines(SignedLines(sign, lines))
    decreases |lines|
  {
    if lines != [] {
      SignedLinesWhole(sign, lines[1..]);
    }
  }

  lemma HunkTextWhole(h: Hunk, before: nat, side: Side)
    ensures WholeLines(HunkText(h, before, side))
  {
    SignedLinesWhole('-', h.removed);
    SignedLinesWhole('+', h.added);
  }

  /** The first line of the text of a hunk is its header, up to the first break in its section. */
  lemma HunkFirstLine(oldStart: nat, oldCount: Option<nat>, start: nat, count: Option<nat>, rest: string)
    ensures var text := HeaderText(oldStart, oldCount, start, count, rest);
            text != "" && SplitLines(text) != [] && ParseLine(SplitLines(text)[0]) == Header(start, count)
  {
    var text := HeaderText(oldStart, oldCount, start, count, rest);
    var head := HeaderText(oldStart, oldCount, start, count, "");
    HeaderSplits(oldStart, oldCount, start, count, rest);
    HeaderHasNoBreak(oldStart, oldCount, start, count);
    hide HeaderText;
    var i := LineEnd(text, 0);
    assert forall k :: 0 <= k < |head| ==> text[k] == head[k] && !Breaks(text[k]);
    var more := text[|head|..i];
    assert text[..i] == head + more;
    HeaderSplits(oldStart, oldCount, start, count, more);
    HeaderIsRead(oldStart, oldCount, start, count, more);
    assert text != "";
    assert SplitLines(text)[0] == text[..i];
  }

  lemma HeaderSplits(oldStart: nat, oldCount: Option<nat>, start: nat, count: Option<nat>, rest: string)
    ensures HeaderText(oldStart, oldCount, start, count, rest) ==
            HeaderText(oldStart, oldCount, start, count, "") + rest
    ensures HeaderText(oldStart, oldCount, start, count, "") != ""
  {
    hide Number;
    hide Count;
    var a, b, c, d := Number(oldStart), Count(oldCount), Number(start), Count(count);
    assert d + (" @@" + rest) == d + (" @@" + "") + rest;
    assert NewSide(start, count, rest) == NewSide(start, count, "") + rest;
    hide NewSide;
    assert b + (" +" + NewSide(start, count, rest)) == b + (" +" + NewSide(start, count, "")) + rest;
  }

  lemma {:induction false} FirstLineCounts(text: string, start: nat, count: Option<nat>)
    requires SplitLines(text) != [] && ParseLine(SplitLines(text)[0]) == Header(start, count)
    ensures RangeOf(start, count) in TextRanges(text)
  {
    hide ParseLine;
    hide SplitLines;
    hide RangeOf;
    FirstRange(Parsed(SplitLines(text)));
  }

  lemma HunkRanges(h: Hunk, before: nat, side: Side)
    ensures var header := HeaderOf(h, before + h.kept);
            RangeOf(header.start, header.count) in TextRanges(HunkText(h, before, side))
  {
    var header := HeaderOf(h, before + h.kept);
    var rest := side.section + "\n" + SignedLines('-', h.removed) + SignedLines('+', h.added);
    assert HunkText(h, before, side) == HeaderText(side.start, side.count, header.start, header.count, rest);
    hide *;
    HunkFirstLine(side.start, side.count, header.start, header.count, rest);
    FirstLineCounts(HunkText(h, before, side), header.start, header.count);
  }

  lemma {:induction false} FirstRange(lines: seq<DiffLine>)
    requires lines != [] && lines[0].Header?
    ensures Ranges(lines) != [] && Ranges(lines)[0] == RangeOf(lines[0].start, lines[0].count)
    decreases |lines|
  {
    if |lines| > 1 {
      FirstRange(lines[..|lines| - 1]);
    } else {
      assert lines[..0] == [];
    }
  }

  predicate NoBreak(s: string) {
    forall i :: 0 <= i < |s| ==> !Breaks(s[i])
  }

  lemma {:induction false} NumberHasNoBreak(n: nat, count: Option<nat>)
    ensures NoBreak(Number(n)) && NoBreak(Count(count))
  {
    NumberIsRead(n);
    if count.Some? {
      NumberIsRead(count.value);
    }
  }

  lemma ConcatHasNoBreak(a: string, b: string)
    requires NoBreak(a) && NoBreak(b)
    ensures NoBreak(a + b)
  {
  }

  lemma HeaderHasNoBreak(oldStart: nat, oldCount: Option<nat>, start: nat, count: Option<nat>)
    ensures NoBreak(HeaderText(oldStart, oldCount, start, count, ""))
  {
    var a, b, c, d := Number(oldStart), Count(oldCount), Number(start), Count(count);
    NumberHasNoBreak(oldStart, oldCount);
    NumberHasNoBreak(start, count);
    assert NoBreak("@@ -") && NoBreak(" +") && NoBreak(" @@" + "");
    hide Number;
    hide Count;
    hide NoBreak;
    ConcatHasNoBreak(d, " @@" + "");
    ConcatHasNoBreak(c, d + (" @@" + ""));
    ConcatHasNoBreak(" +", NewSide(start, count, ""));
    ConcatHasNoBreak(b, " +" + NewSide(start, count, ""));
    ConcatHasNoBreak(a, b + (" +" + NewSide(start, count, "")));
    ConcatHasNoBreak("@@ -", a + (b + (" +" + NewSide(start, count, ""))));
  }

  predicate Within(a: seq<Range>, b: seq<Range>) {
    forall r :: r in a ==> r in b
  }

  lemma RangesOfText(a: string, b: string)
    requires WholeLines(a)
    ensures TextRanges(a + b) == TextRanges(a) + TextRanges(b)
  {
    hide SplitLines;
    hide ParseLine;
    hide Ranges;
    SplitConcat(a, b);
    RangesConcat(Parsed(SplitLines(a)), Parsed(SplitLines(b)));
    assert Parsed(SplitLines(a) + SplitLines(b)) == Parsed(SplitLines(a)) + Parsed(SplitLines(b));
  }

  /** No hunk is overlooked. A source line may look like another header to `splitlines`, so that
      more ranges can come out, never fewer. */
  lemma {:induction false} HunksAreFound(script: seq<Hunk>, before: nat, sides: seq<Side>)
    requires |sides| == |script|
    ensures Within(Ranges(Diff(script, before)), TextRanges(ScriptText(script, before, sides)))
    decreases |script|
  {
    hide HunkText;
    hide TextRanges;
    hide RangeOf;
    hide HeaderOf;
    if script != [] {
      var h := script[0];
      var next := before + h.kept + |h.added|;
      HunkRanges(h, before, sides[0]);
      HunkTextWhole(h, before, sides[0]);
      HunksAreFound(script[1..], next, sides[1..]);
      RangesOfText(HunkText(h, before, sides[0]), ScriptText(script[1..], next, sides[1..]));
      RangesOfDiff(script, before);
      hide Diff;
      hide Ranges;
    } else {
      assert Ranges(Diff(script, before)) == [];
    }
  }

  lemma MoreRangesMeetMore(first: nat, last: nat, a: seq<Range>, b: seq<Range>)
    requires Within(a, b) && Meets(first, last, a)
    ensures Meets(first, last, b)
  {
    var k :| 0 <= k < |a| && a[k].0 <= last && a[k].1 >= first;
    assert a[k] in b;
  }

  /** The same for a whole diff, whose hunks come after some lines about the files. */
  lemma {:induction false} DiffIsFound(script: seq<Hunk>, preamble: string, sides: seq<Side>)
    requires WholeLines(preamble) && |sides| == |script|
    ensures Within(Ranges(Diff(script, 0)), TextRanges(preamble + ScriptText(script, 0, sides)))
  {
    HunksAreFound(script, 0, sides);
    RangesOfText(preamble, ScriptText(script, 0, sides));
  }

  // ---- Nothing but the hunks ----

  /** A line with no break but the newline at its end, if it has one. */
  predicate PlainLine(line: string) {
    NoBreak(line) || (line[|line| - 1] == '\n' && NoBreak(line[..|line| - 1]))
  }

  predicate PlainLines(lines: seq<string>) {
    forall k :: 0 <= k < |lines| ==> PlainLine(lines[k])
  }

  predicate PlainScript(script: seq<Hunk>, sides: seq<Side>)
    requires |sides| == |script|
  {
    forall k :: 0 <= k < |script| ==>
      PlainLines(script[k].removed) && PlainLines(script[k].added) && NoBreak(sides[k].section)
  }

  lemma {:induction false} LineEndIs(s: string, i: nat, n: nat)
    requires i <= n < |s| && Breaks(s[n]) && forall k :: i <= k < n ==> !Breaks(s[k])
    ensures LineEnd(s, i) == n
    decreases n - i
  {
    if i < n {
      LineEndIs(s, i + 1, n);
    }
  }

  lemma {:induction false} OneSplitLine(body: string)
    requires NoBreak(body)
    ensures SplitLines(body + "\n") == [body]
  {
    var s := body + "\n";
    LineEndIs(s, 0, |body|);
    SplitFirst(s);
    assert s[..|body|] == body && s[PastBreak(s, |body|)..] == "";
  }

  lemma {:induction false} OneRange(line: DiffLine)
    ensures Ranges([line]) == if line.Header? then [RangeOf(line.start, line.count)] else []
  {
    assert [line][..0] == [] && Ranges([]) == [];
  }

  lemma {:induction false} RangesOfLine(body: string)
    requires NoBreak(body)
    ensures TextRanges(body + "\n") ==
            if ParseLine(body).Header? then [RangeOf(ParseLine(body).start, ParseLine(body).count)] else []
  {
    OneSplitLine(body);
    OneRange(ParseLine(body));
    hide SplitLines;
    hide ParseLine;
    hide Ranges;
    assert Parsed([body]) == [ParseLine(body)];
  }

  lemma IsNoHeader(line: string)
    requires line != "" && line[0] != '@'
    ensures ParseLine(line) == Other
  {
    hide ParseNewSide;
    hide CountLength;
    hide Digits;
    assert |line| >= 4 ==> line[..4][0] == line[0];
    assert !Starts(line, "@@ -");
  }

  lemma {:induction false} OtherLineHasNoRange(line: string)
    requires line != "" && line[0] != '@' && NoBreak(line)
    ensures TextRanges(line + "\n") == []
  {
    IsNoHeader(line);
    hide *;
    RangesOfLine(line);
  }

  lemma {:induction false} NoteHasNoRange()
    ensures TextRanges("\\ No newline at end of file\n") == []
  {
    var note := "\\ No newline at end of file";
    assert note[0] == '\\' && NoBreak(note) && note + "\n" == "\\ No newline at end of file\n";
    hide *;
    OtherLineHasNoRange(note);
  }

  lemma NoBreakInFront(sign: char, body: string)
    requires (sign == '-' || sign == '+') && NoBreak(body)
    ensures NoBreak([sign] + body)
  {
  }

  lemma {:induction false} SignedHasNoRange(sign: char, line: string)
    requires (sign == '-' || sign == '+') && PlainLine(line)
    ensures TextRanges(SignedLine(sign, line)) == []
  {
    var body := if NoBreak(line) then line else line[..|line| - 1];
    assert NoBreak(line) && line != "" ==> !WholeLines(line);
    assert !NoBreak(line) ==> WholeLines(line) && line != "" && line == body + "\n";
    NoBreakInFront(sign, body);
    hide NoBreak;
    hide TextRanges;
    hide PlainLine;
    var first := [sign] + body;
    OtherLineHasNoRange(first);
    if NoBreak(line) {
      var note := "\\ No newline at end of file\n";
      NoteHasNoRange();
      assert SignedLine(sign, line) == (first + "\n") + note by {
        SignedUnended(sign, line);
      }
      RangesOfText(first + "\n", note);
    } else {
      assert SignedLine(sign, line) == first + "\n";
    }
  }

  lemma SignedUnended(sign: char, line: string)
    requires line == "" || !WholeLines(line)
    ensures SignedLine(sign, line) == ([sign] + line + "\n") + "\\ No newline at end of file\n"
  {
    assert "\n\\ No newline at end of file\n" == "\n" + "\\ No newline at end of file\n";
  }

  lemma {:induction false} SignedHaveNoRange(sign: char, lines: seq<string>)
    requires (sign == '-' || sign == '+') && PlainLines(lines)
    ensures TextRanges(SignedLines(sign, lines)) == []
    decreases |lines|
  {
    hide TextRanges;
    hide PlainLine;
    if lines == [] {
      NoTextNoRange();
    } else {
      SignedHasNoRange(sign, lines[0]);
      SignedHaveNoRange(sign, lines[1..]);
      RangesOfText(SignedLine(sign, lines[0]), SignedLines(sign, lines[1..]));
    }
  }

  lemma {:induction false} NoTextNoRange()
    ensures TextRanges("") == []
  {
  }

  lemma GroupHunk(front: string, section: string, a: string, b: string)
    ensures front + (section + "\n" + a + b) == ((front + section) + "\n") + (a + b)
  {
  }

  lemma {:induction false} HeaderIsReadExactly(side: Side, header: DiffLine)
    requires header.Header? && NoBreak(side.section)
    ensures TextRanges(HeaderText(side.start, side.count, header.start, header.count, side.section) + "\n") ==
            [RangeOf(header.start, header.count)]
  {
    var front := HeaderText(side.start, side.count, header.start, header.count, "");
    HeaderSplits(side.start, side.count, header.start, header.count, side.section);
    HeaderHasNoBreak(side.start, side.count, header.start, header.count);
    HeaderIsRead(side.start, side.count, header.start, header.count, side.section);
    hide *;
    ConcatHasNoBreak(front, side.section);
    RangesOfLine(front + side.section);
  }

  lemma {:induction false} HunkIsReadExactly(h: Hunk, before: nat, side: Side)
    requires PlainLines(h.removed) && PlainLines(h.added) && NoBreak(side.section)
    ensures var header := HeaderOf(h, before + h.kept);
            TextRanges(HunkText(h, before, side)) == [RangeOf(header.start, header.count)]
  {
    var header := HeaderOf(h, before + h.kept);
    var a, b := SignedLines('-', h.removed), SignedLines('+', h.added);
    var line := HeaderText(side.start, side.count, header.start, header.count, side.section);
    hide HeaderText;
    hide TextRanges;
    hide SignedLines;
    hide NoBreak;
    hide PlainLines;
    HeaderSplits(side.start, side.count, header.start, header.count, side.section + "\n" + a + b);
    HeaderSplits(side.start, side.count, header.start, header.count, side.section);
    GroupHunk(HeaderText(side.start, side.count, header.start, header.count, ""), side.section, a, b);
    assert HunkText(h, before, side) == (line + "\n") + (a + b);
    HeaderIsReadExactly(side, header);
    SignedHaveNoRange('-', h.removed);
    SignedHaveNoRange('+', h.added);
    SignedLinesWhole('-', h.removed);
    WholeLine(line);
    hide *;
    RangesOfText(line + "\n", a + b);
    RangesOfText(a, b);
  }

  lemma WholeLine(line: string)
    ensures WholeLines(line + "\n")
  {
  }

  /** With no break inside a line, exactly the ranges of the script are read, and in their order. */
  lemma {:induction false} ScriptIsReadExactly(script: seq<Hunk>, before: nat, sides: seq<Side>)
    requires |sides| == |script| && PlainScript(script, sides)
    ensures TextRanges(ScriptText(script, before, sides)) == Ranges(Diff(script, before))
    decreases |script|
  {
    hide HunkText;
    hide TextRanges;
    hide RangeOf;
    hide HeaderOf;
    hide PlainLines;
    hide NoBreak;
    if script != [] {
      var h := script[0];
      var next := before + h.kept + |h.added|;
      HunkIsReadExactly(h, before, sides[0]);
      HunkTextWhole(h, before, sides[0]);
      ScriptIsReadExactly(script[1..], next, sides[1..]);
      RangesOfText(HunkText(h, before, sides[0]), ScriptText(script[1..], next, sides[1..]));
      RangesOfDiff(script, before);
    } else {
      NoTextNoRange();
      assert Ranges(Diff(script, before)) == [];
    }
  }
}

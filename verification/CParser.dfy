/**
The C function extractor. `Scan` and its helpers say what one pass over masked text reports;
the methods below them are the program's loops, and are shown to compute the same.
*/
module CParser {
  import opened Masking

  predicate IsKeyword(word: string) {
    word in {
    "if", "for", "while", "switch", "return", "sizeof", "do", "else", "case",
    "defined", "alignof", "_Alignof", "typeof", "__typeof__", "decltype",
    "static_assert", "_Static_assert", "asm", "__asm__", "catch", "goto"
    }
  }

  /** Words that may carry a parenthesised group between `)` and `{`. */
  predicate IsPostParenToken(word: string) {
    word in {
    "__attribute__", "__declspec", "asm", "__asm__", "throw", "noexcept",
    "__acquires", "__releases", "__must_hold"
    }
  }

  const TYPE_KEYWORDS: set<string> := {"class", "struct", "union", "enum"}

  /** Control words and operators. */
  predicate Reserved(word: string) {
    || word == "if" || word == "for" || word == "while" || word == "switch" || word == "return" || word == "sizeof"
    || word == "do" || word == "else" || word == "case" || word == "catch" || word == "goto" || word == "defined"
    || word == "alignof" || word == "_Alignof" || word == "typeof" || word == "__typeof__" || word == "decltype"
    || word == "static_assert" || word == "_Static_assert" || word == "asm" || word == "__asm__"
  }

  /** No word more, and none less, is kept from being a name, or read with its group. */
  lemma WordsExactly(word: string)
    ensures IsKeyword(word) <==> Reserved(word)
    ensures IsPostParenToken(word) <==>
              || word == "asm" || word == "__asm__" || word == "__attribute__" || word == "__declspec"
              || word == "throw" || word == "noexcept"
              || word == "__acquires" || word == "__releases" || word == "__must_hold"
  {
  }

  lemma TypeWordsExactly(word: string)
    ensures word in TYPE_KEYWORDS <==> word == "class" || word == "struct" || word == "union" || word == "enum"
  {
  }

  /** One definition: its name and its 1-based, inclusive line range. */
  datatype FunctionSpan = FunctionSpan(name: string, startLine: nat, endLine: nat)

  /** One definition as the characters [start, stop) of the masked text. */
  datatype Extent = Extent(name: string, start: nat, stop: nat)

  /** What follows a candidate's parameter list. */
  datatype Verdict = Accepted(at: nat) | Rejected(at: nat) | RanOut

  predicate IsIdentStart(c: char) {
    'a' <= c <= 'z' || 'A' <= c <= 'Z' || c == '_'
  }

  predicate IsWord(c: char) {
    IsIdentStart(c) || '0' <= c <= '9'
  }

  predicate IsWs(c: char) {
    c == ' ' || c == '\t' || c == '\n' || c == '\r'
  }

  /** White space in the sense of Python's `str.strip` and of `\s`, on ASCII. */
  predicate IsSpace(c: char) {
    9 <= c as int <= 13 || 28 <= c as int <= 32
  }

  /** White space, the start of a name, and its other characters. */
  lemma CharsExactly(c: char)
    ensures IsWs(c) <==> c in " \t\n\r"
    ensures IsIdentStart(c) <==> c == '_' || 65 <= c as int <= 90 || 97 <= c as int <= 122
    ensures IsWord(c) <==> IsIdentStart(c) || 48 <= c as int <= 57
  {
  }

  function SkipWs(m: string, i: nat): (r: nat)
    requires i <= |m|
    ensures i <= r <= |m|
    ensures forall k :: i <= k < r ==> IsWs(m[k])
    ensures r < |m| ==> !IsWs(m[r])
    decreases |m| - i
  {
    if i < |m| && IsWs(m[i]) then SkipWs(m, i + 1) else i
  }

  function WordEnd(m: string, i: nat): (r: nat)
    requires i <= |m|
    ensures i <= r <= |m|
    ensures forall k :: i <= k < r ==> IsWord(m[k])
    ensures r < |m| ==> !IsWord(m[r])
    decreases |m| - i
  {
    if i < |m| && IsWord(m[i]) then WordEnd(m, i + 1) else i
  }

  /** Past the bracket that closes nesting depth `depth`, or the end of the text. */
  function SkipBalanced(m: string, i: nat, depth: int, open: char, close: char): (r: nat)
    requires i <= |m|
    ensures i <= r <= |m|
    ensures i < |m| ==> i < r
    decreases |m| - i
  {
    if i >= |m| then |m|
    else if m[i] == open then SkipBalanced(m, i + 1, depth + 1, open, close)
    else if m[i] == close then
      if depth == 1 then i + 1 else SkipBalanced(m, i + 1, depth - 1, open, close)
    else SkipBalanced(m, i + 1, depth, open, close)
  }

  function StripLeft(s: string): string {
    if |s| > 0 && IsSpace(s[0]) then StripLeft(s[1..]) else s
  }

  function StripRight(s: string): string {
    if |s| > 0 && IsSpace(s[|s| - 1]) then StripRight(s[..|s| - 1]) else s
  }

  function Strip(s: string): string {
    StripRight(StripLeft(s))
  }

  predicate StartsWith(s: string, prefix: string) {
    |prefix| <= |s| && s[..|prefix|] == prefix
  }

  /** `namespace`, or `namespace` with a qualified name. */
  predicate IsNamespaceHead(s: string) {
    && StartsWith(s, "namespace")
    && var rest := s[9..];
       var name := StripLeft(rest);
       || rest == ""
       || (|name| < |rest| && name != "" && IsIdentStart(name[0])
           && forall k :: 0 <= k < |name| ==> IsWord(name[k]) || name[k] == ':')
  }

  /** `extern "..."`. */
  predicate IsLinkageHead(s: string) {
    && StartsWith(s, "extern")
    && var rest := StripLeft(s[6..]);
       && |rest| >= 2 && rest[0] == '"' && rest[|rest| - 1] == '"'
       && '"' !in rest[1..|rest| - 1]
  }

  /** Blocks whose contents are scanned as if the braces were not there. */
  predicate IsTransparent(s: string) {
    || IsNamespaceHead(s)
    || IsLinkageHead(s)
    || (StartsWith(s, "inline") && var rest := StripLeft(s[6..]);
        |rest| < |s| - 6 && IsNamespaceHead(rest))
  }

  predicate TypeKeywordAt(s: string, k: nat)
    requires k < |s|
  {
    && (k == 0 || !IsWord(s[k - 1]))
    && s[k..WordEnd(s, k)] in TYPE_KEYWORDS
  }

  /** The body of a class, struct, union or enum, and not an initialiser. */
  predicate IsTypeBody(s: string) {
    '=' !in s && exists k :: 0 <= k < |s| && TypeKeywordAt(s, k)
  }

  predicate OpensScannedBlock(segment: string) {
    IsTransparent(Strip(segment)) || IsTypeBody(Strip(segment))
  }

  /** One step of the loop after a parameter list, standing on the significant character `p`. */
  datatype TailStep = Decided(verdict: Verdict) | Onward(j: nat, inCtor: bool)

  function StepTail(m: string, p: nat, inCtor: bool): (t: TailStep)
    requires p < |m|
    ensures t.Onward? ==> p < t.j <= |m|
    ensures t.Decided? ==> match t.verdict
                           case Accepted(at) => at == p && m[p] == '{'
                           case Rejected(at) => p <= at <= p + 1
                           case RanOut => false
  {
    if m[p] == '{' then Decided(Accepted(p))
    else if m[p] == ',' && inCtor then Onward(p + 1, inCtor)
    else if m[p] == ';' || m[p] == '=' || m[p] == ',' then Decided(Rejected(p))
    else if m[p] == ':' then Onward(p + 1, true)
    else if m[p] == '-' && p + 1 < |m| && m[p + 1] == '>' then Onward(p + 2, inCtor)
    else if IsIdentStart(m[p]) then
      var end := WordEnd(m, p);
      var after := SkipWs(m, end);
      if after < |m| && m[after] == '(' then
        if IsPostParenToken(m[p..end]) || inCtor then
          Onward(SkipBalanced(m, after, 0, '(', ')'), inCtor)
        else Decided(Rejected(p))
      else Onward(end, inCtor)
    else Decided(Rejected(if m[p] == '}' then p else p + 1))
  }

  /** What follows the parameter list closed just before `j`, with or without an
      initialiser list under way. */
  function Tail(m: string, j: nat, inCtor: bool): (v: Verdict)
    requires j <= |m|
    ensures v.Accepted? ==> j <= v.at < |m| && m[v.at] == '{'
    ensures v.Rejected? ==> j <= v.at <= |m|
    decreases |m| - j
  {
    var p := SkipWs(m, j);
    if p >= |m| then RanOut
    else
      match StepTail(m, p, inCtor)
      case Decided(v) => v
      case Onward(j', inCtor') => Tail(m, j', inCtor')
  }

  /** First significant character of the segment, unless the name comes first. */
  function SignatureStart(m: string, seg: nat, name: nat): (r: nat)
    requires seg <= name <= |m|
    ensures seg <= r <= name
  {
    var first := SkipWs(m, seg);
    if first >= name then name else first
  }

  /** One step of the main loop: what it reports, and where it stands afterwards. */
  datatype Move = Move(found: seq<Extent>, i: nat, seg: nat)

  function Advance(m: string, i: nat, seg: nat): (v: Move)
    requires seg <= i < |m|
    ensures i < v.i <= |m| && seg <= v.seg <= v.i
    ensures v.found == [] ||
            exists e: Extent :: v.found == [e] && seg <= e.start < e.stop == v.seg
  {
    if m[i] == ';' || m[i] == '}' then Move([], i + 1, i + 1)
    else if m[i] == '{' then
      if OpensScannedBlock(m[seg..i]) then Move([], i + 1, i + 1)
      else
        var stop := SkipBalanced(m, i, 0, '{', '}');
        Move([], stop, stop)
    else if IsIdentStart(m[i]) then
      var end := WordEnd(m, i);
      var after := SkipWs(m, end);
      if after >= |m| || m[after] != '(' || IsKeyword(m[i..end]) then Move([], end, seg)
      else
        var close := SkipBalanced(m, after, 0, '(', ')');
        match Tail(m, close, false)
        case Accepted(at) =>
          var stop := SkipBalanced(m, at, 0, '{', '}');
          var e := Extent(m[i..end], SignatureStart(m, seg, i), stop);
          Move([e], stop, stop)
        case Rejected(at) => Move([], at, seg)
        case RanOut => Move([], close, seg)
    else Move([], i + 1, seg)
  }

  /** The definitions found from `i` on, when the current segment began at `seg`. */
  function Scan(m: string, i: nat, seg: nat): seq<Extent>
    requires seg <= i <= |m|
    decreases |m| - i
  {
    if i >= |m| then []
    else
      var v := Advance(m, i, seg);
      v.found + Scan(m, v.i, v.seg)
  }

  function Newlines(s: string): nat {
    if s == "" then 0 else Newlines(s[..|s| - 1]) + (if s[|s| - 1] == '\n' then 1 else 0)
  }

  /** The 1-based line on which position `i` lies. */
  function LineAt(text: string, i: nat): nat
    requires i <= |text|
  {
    1 + Newlines(text[..i])
  }

  function ToSpan(text: string, e: Extent): FunctionSpan
    requires e.start < e.stop <= |text|
  {
    FunctionSpan(e.name, LineAt(text, e.start), LineAt(text, e.stop - 1))
  }

  /** The extents lie in [from, |m|), are not empty, and each ends before the next begins. */
  ghost predicate InOrder(m: string, from: nat, extents: seq<Extent>) {
    && (forall k :: 0 <= k < |extents| ==> from <= extents[k].start < extents[k].stop <= |m|)
    && (forall k :: 0 < k < |extents| ==> extents[k - 1].stop <= extents[k].start)
  }

  lemma {:induction false} ScanInOrder(m: string, i: nat, seg: nat)
    requires seg <= i <= |m|
    ensures InOrder(m, seg, Scan(m, i, seg))
    decreases |m| - i
  {
    hide Advance;
    if i < |m| {
      var v := Advance(m, i, seg);
      ScanInOrder(m, v.i, v.seg);
    }
  }

  /** What `extract_functions` reports for a source text. */
  function Extracted(text: string): (spans: seq<FunctionSpan>)
    ensures |spans| == |Scan(Masked(text), 0, 0)|
  {
    var extents := Scan(Masked(text), 0, 0);
    ScanInOrder(Masked(text), 0, 0);
    seq(|extents|, k requires 0 <= k < |extents| => ToSpan(text, extents[k]))
  }

  lemma {:induction false} NewlinesMonotone(s: string, i: nat, j: nat)
    requires i <= j <= |s|
    ensures Newlines(s[..i]) <= Newlines(s[..j])
    decreases j
  {
    if i < j {
      NewlinesMonotone(s, i, j - 1);
      assert s[..j][..j - 1] == s[..j - 1];
    }
  }

  /** Reported line ranges are proper, and each starts no earlier than the one before it ends. */
  lemma SpansInOrder(text: string)
    ensures forall k :: 0 <= k < |Extracted(text)| ==>
              1 <= Extracted(text)[k].startLine <= Extracted(text)[k].endLine
    ensures forall k :: 0 < k < |Extracted(text)| ==>
              Extracted(text)[k - 1].endLine <= Extracted(text)[k].startLine
  {
    var m := Masked(text);
    var extents := Scan(m, 0, 0);
    ScanInOrder(m, 0, 0);
    forall k | 0 <= k < |extents|
      ensures 1 <= Extracted(text)[k].startLine <= Extracted(text)[k].endLine
    {
      NewlinesMonotone(text, extents[k].start, extents[k].stop - 1);
    }
    forall k | 0 < k < |extents|
      ensures Extracted(text)[k - 1].endLine <= Extracted(text)[k].startLine
    {
      NewlinesMonotone(text, extents[k - 1].stop - 1, extents[k].start);
    }
  }

  // ---- The program's loops ----

  method SkipWhitespace(m: string, start: nat) returns (i: nat)
    requires start <= |m|
    ensures i == SkipWs(m, start)
  {
    i := start;
    while i < |m| && IsWs(m[i])
      invariant start <= i <= |m| && SkipWs(m, i) == SkipWs(m, start)
    {
      i := i + 1;
    }
  }

  method SkipWord(m: string, start: nat) returns (i: nat)
    requires start <= |m|
    ensures i == WordEnd(m, start)
  {
    i := start;
    while i < |m| && IsWord(m[i])
      invariant start <= i <= |m| && WordEnd(m, i) == WordEnd(m, start)
    {
      i := i + 1;
    }
  }

  method SkipGroup(m: string, start: nat, open: char, close: char) returns (stop: nat)
    requires start <= |m|
    ensures stop == SkipBalanced(m, start, 0, open, close)
  {
    var depth := 0;
    var i := start;
    while i < |m|
      invariant start <= i <= |m|
      invariant SkipBalanced(m, i, depth, open, close) == SkipBalanced(m, start, 0, open, close)
    {
      if m[i] == open {
        depth := depth + 1;
      } else if m[i] == close {
        depth := depth - 1;
        if depth == 0 {
          return i + 1;
        }
      }
      i := i + 1;
    }
    return |m|;
  }

  method StepTailFrom(m: string, p: nat, inCtor: bool) returns (t: TailStep)
    requires p < |m|
    ensures t == StepTail(m, p, inCtor)
  {
    hide IsPostParenToken;
    var c := m[p];
    if c == '{' {
      return Decided(Accepted(p));
    }
    if c == ';' || c == '=' || c == ',' {
      if c == ',' && inCtor {
        return Onward(p + 1, inCtor);
      }
      return Decided(Rejected(p));
    }
    if c == ':' {
      return Onward(p + 1, true);
    }
    if c == '-' && p + 1 < |m| && m[p + 1] == '>' {
      return Onward(p + 2, inCtor);
    }
    if IsIdentStart(c) {
      var end := SkipWord(m, p);
      var after := SkipWhitespace(m, end);
      if after < |m| && m[after] == '(' {
        if IsPostParenToken(m[p..end]) || inCtor {
          var j := SkipGroup(m, after, '(', ')');
          return Onward(j, inCtor);
        }
        return Decided(Rejected(p));
      }
      return Onward(end, inCtor);
    }
    return Decided(Rejected(if c == '}' then p else p + 1));
  }

  /** The loop after a candidate's parameter list. */
  method ScanTail(m: string, close: nat) returns (v: Verdict)
    requires close <= |m|
    ensures v == Tail(m, close, false)
  {
    hide StepTail;
    var j := close;
    var inCtor := false;
    while j < |m|
      invariant close <= j <= |m|
      invariant Tail(m, j, inCtor) == Tail(m, close, false)
      decreases |m| - j
    {
      j := SkipWhitespace(m, j);
      if j >= |m| {
        break;
      }
      var t := StepTailFrom(m, j, inCtor);
      match t {
        case Decided(verdict) => return verdict;
        case Onward(j', inCtor') => j, inCtor := j', inCtor';
      }
    }
    return RanOut;
  }

  method AdvanceFrom(m: string, i: nat, seg: nat) returns (v: Move)
    requires seg <= i < |m|
    ensures v == Advance(m, i, seg)
  {
    hide IsKeyword;
    hide OpensScannedBlock;
    hide Tail;
    var c := m[i];
    if c == ';' || c == '}' {
      return Move([], i + 1, i + 1);
    }
    if c == '{' {
      if OpensScannedBlock(m[seg..i]) {
        return Move([], i + 1, i + 1);
      }
      var stop := SkipGroup(m, i, '{', '}');
      return Move([], stop, stop);
    }
    if IsIdentStart(c) {
      var end := SkipWord(m, i);
      var after := SkipWhitespace(m, end);
      if after >= |m| || m[after] != '(' || IsKeyword(m[i..end]) {
        return Move([], end, seg);
      }
      var close := SkipGroup(m, after, '(', ')');
      var tail := ScanTail(m, close);
      match tail {
        case Accepted(at) =>
          var stop := SkipGroup(m, at, '{', '}');
          var first := SkipWhitespace(m, seg);
          if first >= i {
            first := i;
          }
          return Move([Extent(m[i..end], first, stop)], stop, stop);
        case Rejected(at) => return Move([], at, seg);
        case RanOut => return Move([], close, seg);
      }
    }
    return Move([], i + 1, seg);
  }

  /** The main loop. */
  method ScanAll(m: string) returns (extents: seq<Extent>)
    ensures extents == Scan(m, 0, 0)
  {
    hide Advance;
    extents := [];
    var i, seg := 0, 0;
    while i < |m|
      invariant 0 <= seg <= i <= |m|
      invariant extents + Scan(m, i, seg) == Scan(m, 0, 0)
      decreases |m| - i
    {
      var v := AdvanceFrom(m, i, seg);
      assert extents + (v.found + Scan(m, v.i, v.seg)) == (extents + v.found) + Scan(m, v.i, v.seg);
      extents := extents + v.found;
      i, seg := v.i, v.seg;
    }
  }

  /** The offsets at which the first lines of `text` start. */
  ghost predicate LineStarts(text: string, starts: seq<nat>, upTo: nat) {
    && upTo <= |text|
    && |starts| == 1 + Newlines(text[..upTo])
    && (forall k :: 0 <= k < |starts| ==> starts[k] <= upTo)
    && (forall k :: 0 <= k < |starts| ==> Newlines(text[..starts[k]]) == k)
    && starts[0] == 0
    && (forall k :: 0 < k < |starts| ==> starts[k] > 0 && text[starts[k] - 1] == '\n')
  }

  method FindLineStarts(text: string) returns (starts: seq<nat>)
    ensures LineStarts(text, starts, |text|)
  {
    starts := [0];
    var i := 0;
    while i < |text|
      invariant LineStarts(text, starts, i)
    {
      assert text[..i + 1][..i] == text[..i];
      if text[i] == '\n' {
        starts := starts + [i + 1];
      }
      i := i + 1;
    }
  }

  /** A line start lies at or before `i` exactly when its line does. */
  lemma StartsAtOrBefore(text: string, starts: seq<nat>, k: nat, i: nat)
    requires LineStarts(text, starts, |text|) && k < |starts| && i <= |text|
    ensures starts[k] <= i <==> k < LineAt(text, i)
  {
    if starts[k] <= i {
      NewlinesMonotone(text, starts[k], i);
    } else if k > 0 {
      NewlinesMonotone(text, i, starts[k] - 1);
      assert text[..starts[k]][..starts[k] - 1] == text[..starts[k] - 1];
    }
  }

  /** `bisect_right` over the line starts: the number of lines begun at or before `i`. */
  method LineOf(text: string, starts: seq<nat>, i: nat) returns (line: nat)
    requires LineStarts(text, starts, |text|) && i <= |text|
    ensures line == LineAt(text, i)
  {
    var lo, hi := 0, |starts|;
    NewlinesMonotone(text, i, |text|);
    assert text[..|text|] == text;
    while lo < hi
      invariant 0 <= lo <= hi <= |starts|
      invariant lo <= LineAt(text, i) <= hi
    {
      var mid := (lo + hi) / 2;
      StartsAtOrBefore(text, starts, mid, i);
      if i < starts[mid] {
        hi := mid;
      } else {
        lo := mid + 1;
      }
    }
    line := lo;
  }

  /** Masking does not move lines. */
  lemma {:induction false} MaskedLines(text: string, i: nat)
    requires i <= |text|
    ensures LineAt(Masked(text), i) == LineAt(text, i)
  {
    if i > 0 {
      MaskedLines(text, i - 1);
      MaskedKeepsLayout(text);
      assert text[..i][..i - 1] == text[..i - 1];
      assert Masked(text)[..i][..i - 1] == Masked(text)[..i - 1];
      assert Masked(text)[..i][i - 1] == Masked(text)[i - 1];
    }
  }

  lemma {:induction false} ExtractedAt(text: string, k: nat)
    requires k < |Extracted(text)|
    ensures var e := Scan(Masked(text), 0, 0)[k];
            e.start < e.stop <= |text| && Extracted(text)[k] == ToSpan(text, e)
  {
    ScanInOrder(Masked(text), 0, 0);
  }

  method SpanOf(text: string, m: string, starts: seq<nat>, e: Extent) returns (span: FunctionSpan)
    requires m == Masked(text) && LineStarts(m, starts, |m|) && e.start < e.stop <= |text|
    ensures span == ToSpan(text, e)
  {
    hide LineAt;
    hide LineStarts;
    hide Masked;
    MaskedKeepsLayout(text);
    MaskedLines(text, e.start);
    MaskedLines(text, e.stop - 1);
    var first := LineOf(m, starts, e.start);
    var last := LineOf(m, starts, e.stop - 1);
    span := FunctionSpan(e.name, first, last);
  }

  /** `extract_functions`. */
  method ExtractFunctions(text: string) returns (spans: seq<FunctionSpan>)
    ensures spans == Extracted(text)
  {
    hide *;
    var m := Mask(text);
    var starts := FindLineStarts(m);
    var extents := ScanAll(m);
    spans := [];
    ghost var all := Extracted(text);
    for k := 0 to |extents|
      invariant spans == all[..k]
    {
      ExtractedAt(text, k);
      var span := SpanOf(text, m, starts, extents[k]);
      spans := spans + [span];
    }
  }
}

/**
Comment, literal and preprocessor masking of C sources (`_mask` in the C function parser).

The program walks the text with nested loops. Here the walk is checked against an automaton
that reads one character at a time, with one character of lookahead; every statement about
masked text is proved about the automaton.
*/
module Masking {

  /** What the automaton is in the middle of when it reaches a character. */
  datatype Mode =
    | Code(lineStart: bool)     // only blanks seen on this line so far?
    | Directive(escaped: bool)  // preprocessor line; was its last non-blank a backslash?
    | LineComment
    | BlockOpen                 // on the '*' of the opening
    | BlockComment
    | BlockClose                // on the '/' of the closing
    | Literal(quote: char)
    | LiteralEscape(quote: char)

  function Blank(c: char): char {
    if c == '\n' then c else ' '
  }

  predicate IsBlank(c: char) {
    c == ' ' || c == '\t'
  }

  /** Does the character `c` follow position `i`? */
  predicate NextIs(text: string, i: nat, c: char) {
    i + 1 < |text| && text[i + 1] == c
  }

  /** The mode after reading position `i` in mode `m`. */
  function Next(text: string, i: nat, m: Mode): Mode
    requires i < |text|
  {
    var c := text[i];
    match m
    case Code(lineStart) =>
      if c == '\n' then Code(true)
      else if lineStart && IsBlank(c) then Code(true)
      else if lineStart && c == '#' then Directive(false)
      else if c == '/' && NextIs(text, i, '/') then LineComment
      else if c == '/' && NextIs(text, i, '*') then BlockOpen
      else if c == '"' || c == '\'' then Literal(c)
      else Code(false)
    case Directive(escaped) =>
      if c == '\n' then (if escaped then Directive(false) else Code(true))
      else if IsBlank(c) then m
      else Directive(c == '\\')
    case LineComment => if c == '\n' then Code(true) else LineComment
    case BlockOpen => BlockComment
    case BlockComment => if c == '*' && NextIs(text, i, '/') then BlockClose else BlockComment
    case BlockClose => Code(false)
    case Literal(quote) =>
      if c == quote then Code(false)
      else if c == '\\' && i + 1 < |text| then LiteralEscape(quote)
      else if c == '\n' then Code(false)
      else m
    case LiteralEscape(quote) => Literal(quote)
  }

  /** What the automaton writes for position `i` read in mode `m`. */
  function Written(text: string, i: nat, m: Mode): char
    requires i < |text|
  {
    var c := text[i];
    match m
    case Code(_) =>
      if Next(text, i, m).Code? || Next(text, i, m).Literal? then c else ' '
    case Literal(quote) => if c == quote then c else Blank(c)
    case _ => Blank(c)
  }

  /** The mode in which position `i` is read. */
  function ModeAt(text: string, i: nat): Mode
    requires i <= |text|
  {
    if i == 0 then Code(true) else Next(text, i - 1, ModeAt(text, i - 1))
  }

  function MaskedAt(text: string, i: nat): char
    requires i < |text|
  {
    Written(text, i, ModeAt(text, i))
  }

  function Masked(text: string): string {
    seq(|text|, i requires 0 <= i < |text| => MaskedAt(text, i))
  }

  /** Where the nested loops stand: `out` is masked up to `i` and untouched from there. */
  ghost predicate MaskedUpTo(out: seq<char>, text: string, i: nat) {
    && |out| == |text|
    && i <= |text|
    && (forall k :: 0 <= k < i ==> out[k] == MaskedAt(text, k))
    && (forall k :: i <= k < |text| ==> out[k] == text[k])
  }

  /** The last non-blank character before `j` on its line is a backslash. */
  function LooksBackAtBackslash(text: string, j: int): bool
    requires -1 <= j < |text|
    decreases j + 1
  {
    if j < 0 then false
    else if IsBlank(text[j]) then LooksBackAtBackslash(text, j - 1)
    else text[j] == '\\'
  }

  method EndsInBackslash(text: string, i: nat) returns (r: bool)
    requires i < |text|
    ensures r == LooksBackAtBackslash(text, i - 1)
  {
    var j := i - 1;
    while j >= 0 && IsBlank(text[j])
      invariant -1 <= j < i
      invariant LooksBackAtBackslash(text, i - 1) == LooksBackAtBackslash(text, j)
    {
      j := j - 1;
    }
    r := j >= 0 && text[j] == '\\';
  }

  method BlankAt(out: array<char>, i: nat)
    requires i < out.Length
    modifies out
    ensures out[..] == old(out[..])[i := Blank(old(out[i]))]
  {
    if out[i] != '\n' {
      out[i] := ' ';
    }
  }

  /** Blanks a preprocessor line with its continuation lines, starting on the '#'. */
  method MaskDirective(text: string, out: array<char>, start: nat) returns (i: nat)
    requires MaskedUpTo(out[..], text, start)
    requires start < |text| && text[start] == '#' && ModeAt(text, start) == Code(true)
    modifies out
    ensures start < i <= |text| && MaskedUpTo(out[..], text, i)
    ensures i < |text| ==> ModeAt(text, i) == Code(true)
  {
    i := start;
    while i < |text|
      invariant start <= i <= |text| && MaskedUpTo(out[..], text, i)
      invariant i == start || ModeAt(text, i) == Directive(LooksBackAtBackslash(text, i - 1))
      invariant i == start ==> text[i] == '#'
    {
      if text[i] == '\n' {
        var continued := EndsInBackslash(text, i);
        assert MaskedAt(text, i) == '\n';
        if continued {
          i := i + 1;
          continue;
        }
        break;
      }
      BlankAt(out, i);
      i := i + 1;
    }
    // the program also steps over the newline, or past the end
    if i < |text| {
      assert ModeAt(text, i + 1) == Code(true);
      i := i + 1;
    }
  }

  method MaskLineComment(text: string, out: array<char>, start: nat) returns (i: nat)
    requires MaskedUpTo(out[..], text, start)
    requires start < |text| && text[start] == '/' && NextIs(text, start, '/')
    requires ModeAt(text, start).Code?
    modifies out
    ensures start < i <= |text| && MaskedUpTo(out[..], text, i)
    ensures i < |text| ==> text[i] == '\n' && ModeAt(text, i) == LineComment
  {
    i := start;
    while i < |text| && text[i] != '\n'
      invariant start <= i <= |text| && MaskedUpTo(out[..], text, i)
      invariant i == start || ModeAt(text, i) == LineComment
    {
      BlankAt(out, i);
      i := i + 1;
    }
  }

  method MaskBlockComment(text: string, out: array<char>, start: nat) returns (i: nat)
    requires MaskedUpTo(out[..], text, start)
    requires start < |text| && text[start] == '/' && NextIs(text, start, '*')
    requires ModeAt(text, start).Code?
    modifies out
    ensures start < i <= |text| && MaskedUpTo(out[..], text, i)
    ensures i < |text| ==> ModeAt(text, i) == Code(false)
  {
    assert ModeAt(text, start + 1) == BlockOpen;
    assert ModeAt(text, start + 2) == BlockComment;
    BlankAt(out, start);
    BlankAt(out, start + 1);
    i := start + 2;
    while i < |text| && !(text[i] == '*' && i + 1 < |text| && text[i + 1] == '/')
      invariant start + 2 <= i <= |text| && MaskedUpTo(out[..], text, i)
      invariant ModeAt(text, i) == BlockComment
    {
      BlankAt(out, i);
      i := i + 1;
    }
    if i < |text| {
      assert ModeAt(text, i + 1) == BlockClose;
      assert ModeAt(text, i + 2) == Code(false);
      BlankAt(out, i);
      BlankAt(out, i + 1);
      i := i + 2;
    }
  }

  /** Blanks the contents of a literal, keeping its quotes. An unclosed literal ends with its line. */
  method MaskLiteral(text: string, out: array<char>, start: nat) returns (i: nat)
    requires MaskedUpTo(out[..], text, start)
    requires start < |text| && (text[start] == '"' || text[start] == '\'')
    requires ModeAt(text, start).Code?
    modifies out
    ensures start < i <= |text| && MaskedUpTo(out[..], text, i)
    ensures i < |text| ==> ModeAt(text, i) == Code(false)
  {
    var quote := text[start];
    i := start + 1;
    while i < |text| && text[i] != quote
      invariant start < i <= |text| && MaskedUpTo(out[..], text, i)
      invariant ModeAt(text, i) == Literal(quote)
    {
      if text[i] == '\\' && i + 1 < |text| {
        assert ModeAt(text, i + 1) == LiteralEscape(quote);
        assert ModeAt(text, i + 2) == Literal(quote);
        BlankAt(out, i);
        BlankAt(out, i + 1);
        i := i + 2;
        continue;
      }
      if text[i] == '\n' {
        break;
      }
      BlankAt(out, i);
      i := i + 1;
    }
    if i < |text| {
      assert ModeAt(text, i + 1) == Code(false);
      i := i + 1;
    }
  }

  /** A character of code that opens nothing is kept, and so is a newline in code or after `//`. */
  lemma KeepCharacter(out: seq<char>, text: string, i: nat, lineStart: bool)
    requires MaskedUpTo(out, text, i) && i < |text|
    requires ModeAt(text, i) == Code(lineStart) || (ModeAt(text, i) == LineComment && text[i] == '\n')
    requires text[i] == '/' ==> !NextIs(text, i, '/') && !NextIs(text, i, '*')
    requires !(lineStart && text[i] == '#') && text[i] != '"' && text[i] != '\''
    ensures MaskedUpTo(out, text, i + 1)
    ensures ModeAt(text, i + 1) == Code(text[i] == '\n' || (lineStart && IsBlank(text[i])))
  {
    assert ModeAt(text, i + 1) == Next(text, i, ModeAt(text, i));
  }

  /** Where the main loop stands. */
  ghost predicate OnTrack(out: seq<char>, text: string, i: nat, lineStart: bool) {
    && MaskedUpTo(out, text, i)
    && (i < |text| ==> ModeAt(text, i) == Code(lineStart) || (ModeAt(text, i) == LineComment && text[i] == '\n'))
  }

  /** One round of the main loop. */
  method MaskNext(text: string, out: array<char>, start: nat, wasLineStart: bool) returns (i: nat, lineStart: bool)
    requires start < |text| && OnTrack(out[..], text, start, wasLineStart)
    modifies out
    ensures start < i && OnTrack(out[..], text, i, lineStart)
  {
    hide MaskedUpTo;
    hide ModeAt;
    i, lineStart := start, wasLineStart;
    var ch := text[i];
    if ch == '\n' {
      KeepCharacter(out[..], text, i, lineStart);
      lineStart := true;
      i := i + 1;
    } else if lineStart && IsBlank(ch) {
      KeepCharacter(out[..], text, i, lineStart);
      i := i + 1;
    } else if ch == '#' && lineStart {
      i := MaskDirective(text, out, i);
      lineStart := true;
    } else {
      lineStart := false;
      if ch == '/' && NextIs(text, i, '/') {
        i := MaskLineComment(text, out, i);
      } else if ch == '/' && NextIs(text, i, '*') {
        i := MaskBlockComment(text, out, i);
      } else if ch == '"' || ch == '\'' {
        i := MaskLiteral(text, out, i);
      } else {
        KeepCharacter(out[..], text, i, wasLineStart);
        i := i + 1;
      }
    }
  }

  /** `_mask`: the nested loops compute what the automaton writes. */
  method Mask(text: string) returns (masked: string)
    ensures masked == Masked(text)
  {
    var out := new char[|text|](i requires 0 <= i < |text| => text[i]);
    assert out[..] == text;
    NothingMasked(text);
    hide *;
    var i := 0;
    var lineStart := true;
    while i < |text|
      invariant OnTrack(out[..], text, i, lineStart)
      decreases |text| - i
    {
      i, lineStart := MaskNext(text, out, i, lineStart);
    }
    AllMasked(out[..], text, i, lineStart);
    masked := out[..];
  }

  lemma NothingMasked(text: string)
    ensures OnTrack(text, text, 0, true)
  {
  }

  lemma AllMasked(out: seq<char>, text: string, i: nat, lineStart: bool)
    requires OnTrack(out, text, i, lineStart) && i >= |text|
    ensures out == Masked(text)
  {
  }

  /** Masking keeps the length and every newline, adds none, and otherwise only writes blanks. */
  lemma MaskedKeepsLayout(text: string)
    ensures |Masked(text)| == |text|
    ensures forall i :: 0 <= i < |text| ==>
              && (Masked(text)[i] == '\n' <==> text[i] == '\n')
              && (Masked(text)[i] != text[i] ==> Masked(text)[i] == ' ')
  {
    forall i | 0 <= i < |text|
      ensures Masked(text)[i] == MaskedAt(text, i)
    {
    }
  }
}

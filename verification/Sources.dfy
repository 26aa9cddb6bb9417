/**
A printer of C sources with comments, literals and preprocessor lines: what masking makes of a source
is told piece by piece, from the pieces it was printed from.
*/
module Sources {
  import M = Masking

  /** A character of a literal, as it is or behind a backslash. */
  datatype Inner = Plain(c: char) | Escaped(c: char)

  /** A piece that is not `ended` is the last one: it runs to the end of the file. */
  datatype Piece =
    | Code(text: string)
    | Literal(quote: char, inner: seq<Inner>)
    | Broken(quote: char, inner: seq<Inner>, ended: bool)  // not closed before the end of its line
    | LineComment(text: string, ended: bool)
    | BlockComment(text: string, ended: bool)
    | Directive(lines: seq<string>, ended: bool)           // with its continuation lines

  // ---- The printer ----

  function PrintInner(inner: seq<Inner>): string {
    if inner == [] then ""
    else (if inner[0].Plain? then [inner[0].c] else ['\\', inner[0].c]) + PrintInner(inner[1..])
  }

  function Joined(lines: seq<string>): string {
    if lines == [] then "" else if |lines| == 1 then lines[0] else lines[0] + ("\n" + Joined(lines[1..]))
  }

  function EndOfLine(ended: bool): string {
    if ended then "\n" else ""
  }

  function PrintPiece(p: Piece): string {
    match p
    case Code(text) => text
    case Literal(quote, inner) => [quote] + (PrintInner(inner) + [quote])
    case Broken(quote, inner, ended) => [quote] + (PrintInner(inner) + EndOfLine(ended))
    case LineComment(text, ended) => "//" + (text + EndOfLine(ended))
    case BlockComment(text, ended) => "/*" + (text + if ended then "*/" else "")
    case Directive(lines, ended) => "#" + (Joined(lines) + EndOfLine(ended))
  }

  function Print(pieces: seq<Piece>): string {
    if pieces == [] then "" else PrintPiece(pieces[0]) + Print(pieces[1..])
  }

  // ---- What is to be left ----

  function Blanked(s: string): string {
    seq(|s|, i requires 0 <= i < |s| => if s[i] == '\n' then '\n' else ' ')
  }

  /** Code stays, and of a literal the quotes; all else becomes blanks and newlines. */
  function MaskPiece(p: Piece): string {
    match p
    case Code(text) => text
    case Literal(quote, inner) => [quote] + (Blanked(PrintInner(inner)) + [quote])
    case Broken(quote, inner, ended) => [quote] + (Blanked(PrintInner(inner)) + EndOfLine(ended))
    case _ => Blanked(PrintPiece(p))
  }

  function MaskPieces(pieces: seq<Piece>): string {
    if pieces == [] then "" else MaskPiece(pieces[0]) + MaskPieces(pieces[1..])
  }

  // ---- Well-formedness ----

  predicate IsBlank(c: char) {
    c == ' ' || c == '\t'
  }

  /** Only blanks stand on the line after `text`, which itself starts at the start of a line or not. */
  predicate AtLineStart(text: string, before: bool) {
    if text == "" then before
    else if text[|text| - 1] == '\n' then true
    else IsBlank(text[|text| - 1]) && AtLineStart(text[..|text| - 1], before)
  }

  /** Code in front of `rest` opens no comment, literal or directive. */
  predicate GoodCode(text: string, lineStart: bool, rest: string) {
    forall k :: 0 <= k < |text| ==>
      && text[k] != '"' && text[k] != '\''
      && (text[k] == '#' ==> !AtLineStart(text[..k], lineStart))
      && (text[k] == '/' && k + 1 < |text + rest| ==> (text + rest)[k + 1] != '/' && (text + rest)[k + 1] != '*')
  }

  predicate GoodInner(inner: seq<Inner>, quote: char) {
    forall k :: 0 <= k < |inner| && inner[k].Plain? ==>
      inner[k].c != quote && inner[k].c != '\\' && inner[k].c != '\n'
  }

  predicate IsQuote(c: char) {
    c == '"' || c == '\''
  }

  /** No comment ends in the text. */
  predicate Unclosed(t: string) {
    forall k :: 0 < k < |t| ==> !(t[k - 1] == '*' && t[k] == '/')
  }

  /** The last character but for blanks is a backslash. */
  predicate Continues(line: string) {
    line != "" && (line[|line| - 1] == '\\' || (IsBlank(line[|line| - 1]) && Continues(line[..|line| - 1])))
  }

  predicate GoodLines(lines: seq<string>) {
    && lines != []
    && (forall k :: 0 <= k < |lines| ==> '\n' !in lines[k])
    && (forall k :: 0 <= k < |lines| ==> (Continues(lines[k]) <==> k < |lines| - 1))
  }

  predicate GoodPiece(p: Piece, lineStart: bool, rest: string) {
    match p
    case Code(text) => GoodCode(text, lineStart, rest)
    case Literal(quote, inner) => IsQuote(quote) && GoodInner(inner, quote)
    case Broken(quote, inner, _) => IsQuote(quote) && GoodInner(inner, quote)
    case LineComment(text, _) => '\n' !in text
    case BlockComment(text, _) => Unclosed(text)
    case Directive(lines, _) => lineStart && GoodLines(lines)
  }

  predicate RunsOut(p: Piece) {
    !p.Code? && !p.Literal? && !p.ended
  }

  /** Is the next piece at the start of a line? Not behind a literal that its line has ended. */
  predicate LineStartAfter(p: Piece, lineStart: bool) {
    match p
    case Code(text) => AtLineStart(text, lineStart)
    case LineComment(_, _) => true
    case Directive(_, _) => true
    case _ => false
  }

  predicate GoodPieces(pieces: seq<Piece>, lineStart: bool) {
    pieces != [] ==>
      && (RunsOut(pieces[0]) ==> |pieces| == 1)
      && GoodPiece(pieces[0], lineStart, Print(pieces[1..]))
      && GoodPieces(pieces[1..], LineStartAfter(pieces[0], lineStart))
  }

  // ---- Masking, piece by piece ----

  /** `s` stands at position `i`. */
  ghost predicate At(text: string, i: nat, s: string) {
    i + |s| <= |text| && text[i..i + |s|] == s
  }

  lemma {:induction false} AtConcat(text: string, i: nat, a: string, b: string)
    requires At(text, i, a + b)
    ensures At(text, i, a) && At(text, i + |a|, b)
  {
    var s := text[i..i + |a + b|];
    assert s[..|a|] == a && s[|a|..] == b;
  }

  lemma {:induction false} AtChar(text: string, i: nat, s: string, k: nat)
    requires At(text, i, s) && k < |s|
    ensures text[i + k] == s[k]
  {
    assert text[i..i + |s|][k] == s[k];
  }

  /** Reading `s` at `i` in the mode `a` writes `masked` and leaves the automaton in the mode `b`. */
  ghost predicate Turns(text: string, i: nat, s: string, masked: string, a: M.Mode, b: M.Mode) {
    && |s| == |masked| && i + |s| <= |text|
    && M.ModeAt(text, i) == a && M.ModeAt(text, i + |s|) == b
    && forall k :: 0 <= k < |s| ==> M.MaskedAt(text, i + k) == masked[k]
  }

  lemma {:induction false} Joins(text: string, i: nat, s: string, masked: string, a: M.Mode, b: M.Mode,
      s': string, masked': string, c: M.Mode)
    requires Turns(text, i, s, masked, a, b) && Turns(text, i + |s|, s', masked', b, c)
    ensures Turns(text, i, s + s', masked + masked', a, c)
  {
    hide M.ModeAt;
    hide M.MaskedAt;
    forall k | 0 <= k < |s + s'| ensures M.MaskedAt(text, i + k) == (masked + masked')[k] {
      if k >= |s| {
        assert M.MaskedAt(text, i + |s| + (k - |s|)) == masked'[k - |s|];
      }
    }
  }

  lemma {:induction false} Nothing(text: string, i: nat, a: M.Mode)
    requires i <= |text| && M.ModeAt(text, i) == a
    ensures Turns(text, i, "", "", a, a)
  {
  }

  /** One character that is kept, or blanked. */
  lemma {:induction false} One(text: string, i: nat, c: char, w: char, a: M.Mode, b: M.Mode)
    requires i < |text| && M.ModeAt(text, i) == a && M.Next(text, i, a) == b && M.Written(text, i, a) == w
    ensures Turns(text, i, [c], [w], a, b)
  {
  }

  lemma {:induction false} BlankedConcat(a: string, b: string)
    ensures Blanked(a + b) == Blanked(a) + Blanked(b)
  {
  }

  lemma {:induction false} BlankedChar(c: char)
    ensures Blanked([c]) == [if c == '\n' then '\n' else ' '] && Blanked("") == ""
  {
  }

  lemma {:induction false} CodeStep(text: string, i: nat, lineStart: bool)
    requires i < |text| && M.ModeAt(text, i) == M.Code(lineStart)
    requires text[i] != '"' && text[i] != '\'' && (text[i] == '#' ==> !lineStart)
    requires text[i] == '/' && i + 1 < |text| ==> text[i + 1] != '/' && text[i + 1] != '*'
    ensures Turns(text, i, [text[i]], [text[i]], M.Code(lineStart),
                  M.Code(text[i] == '\n' || (IsBlank(text[i]) && lineStart)))
  {
    One(text, i, text[i], text[i], M.Code(lineStart), M.Next(text, i, M.Code(lineStart)));
  }

  lemma {:induction false} GoodCodeAt(text: string, i: nat, t: string, lineStart: bool, rest: string, k: nat)
    requires At(text, i, t + rest) && i + |t + rest| == |text| && GoodCode(t, lineStart, rest) && k < |t|
    ensures text[i + k] == t[k] && t[k] != '"' && t[k] != '\'' && (t[k] == '#' ==> !AtLineStart(t[..k], lineStart))
    ensures t[k] == '/' && i + k + 1 < |text| ==> text[i + k + 1] != '/' && text[i + k + 1] != '*'
  {
    AtChar(text, i, t + rest, k);
    if k + 1 < |t + rest| {
      AtChar(text, i, t + rest, k + 1);
    }
  }

  lemma {:induction false} LineStartStep(t: string, n: nat, lineStart: bool)
    requires n < |t|
    ensures t[..n] + [t[n]] == t[..n + 1]
    ensures AtLineStart(t[..n + 1], lineStart) <==> t[n] == '\n' || (IsBlank(t[n]) && AtLineStart(t[..n], lineStart))
  {
    assert t[..n + 1][..n] == t[..n];
  }

  lemma {:induction false} MasksCode(text: string, i: nat, t: string, lineStart: bool, rest: string, n: nat)
    requires At(text, i, t + rest) && i + |t + rest| == |text| && GoodCode(t, lineStart, rest)
    requires M.ModeAt(text, i) == M.Code(lineStart) && n <= |t|
    ensures Turns(text, i, t[..n], t[..n], M.Code(lineStart), M.Code(AtLineStart(t[..n], lineStart)))
    decreases n
  {
    hide M.ModeAt;
    hide M.MaskedAt;
    hide GoodCode;
    hide At;
    if n > 0 {
      MasksCode(text, i, t, lineStart, rest, n - 1);
      GoodCodeAt(text, i, t, lineStart, rest, n - 1);
      LineStartStep(t, n - 1, lineStart);
      CodeStep(text, i + n - 1, AtLineStart(t[..n - 1], lineStart));
      hide Turns;
      hide AtLineStart;
      Joins(text, i, t[..n - 1], t[..n - 1], M.Code(lineStart), M.Code(AtLineStart(t[..n - 1], lineStart)),
          [t[n - 1]], [t[n - 1]], M.Code(AtLineStart(t[..n], lineStart)));
    } else {
      assert t[..0] == "";
      Nothing(text, i, M.Code(lineStart));
    }
  }

  // ---- Literals ----

  lemma {:induction false} Opens(text: string, i: nat, quote: char, lineStart: bool)
    requires i < |text| && text[i] == quote && IsQuote(quote) && M.ModeAt(text, i) == M.Code(lineStart)
    ensures Turns(text, i, [quote], [quote], M.Code(lineStart), M.Literal(quote))
  {
    One(text, i, quote, quote, M.Code(lineStart), M.Literal(quote));
  }

  lemma {:induction false} Closes(text: string, i: nat, quote: char)
    requires i < |text| && text[i] == quote && M.ModeAt(text, i) == M.Literal(quote)
    ensures Turns(text, i, [quote], [quote], M.Literal(quote), M.Code(false))
  {
    One(text, i, quote, quote, M.Literal(quote), M.Code(false));
  }

  lemma {:induction false} Breaks(text: string, i: nat, quote: char)
    requires i < |text| && text[i] == '\n' && IsQuote(quote) && M.ModeAt(text, i) == M.Literal(quote)
    ensures Turns(text, i, "\n", "\n", M.Literal(quote), M.Code(false))
  {
    One(text, i, '\n', '\n', M.Literal(quote), M.Code(false));
  }

  lemma {:induction false} MasksPlain(text: string, i: nat, c: char, quote: char)
    requires At(text, i, [c]) && c != quote && c != '\\' && c != '\n' && M.ModeAt(text, i) == M.Literal(quote)
    ensures Turns(text, i, [c], Blanked([c]), M.Literal(quote), M.Literal(quote))
  {
    AtChar(text, i, [c], 0);
    BlankedChar(c);
    One(text, i, c, ' ', M.Literal(quote), M.Literal(quote));
  }

  lemma {:induction false} MasksEscaped(text: string, i: nat, c: char, quote: char)
    requires At(text, i, ['\\', c]) && IsQuote(quote) && M.ModeAt(text, i) == M.Literal(quote)
    ensures Turns(text, i, ['\\', c], Blanked(['\\', c]), M.Literal(quote), M.Literal(quote))
  {
    AtChar(text, i, ['\\', c], 0);
    AtChar(text, i, ['\\', c], 1);
    BlankedChar('\\');
    BlankedChar(c);
    BlankedConcat(['\\'], [c]);
    One(text, i, '\\', ' ', M.Literal(quote), M.LiteralEscape(quote));
    One(text, i + 1, c, if c == '\n' then '\n' else ' ', M.LiteralEscape(quote), M.Literal(quote));
    assert ['\\'] + [c] == ['\\', c];
    hide Turns;
    Joins(text, i, ['\\'], Blanked(['\\']), M.Literal(quote), M.LiteralEscape(quote), [c], Blanked([c]),
        M.Literal(quote));
  }

  lemma {:induction false} MasksInner(text: string, i: nat, inner: seq<Inner>, quote: char)
    requires At(text, i, PrintInner(inner)) && GoodInner(inner, quote) && IsQuote(quote)
    requires M.ModeAt(text, i) == M.Literal(quote)
    ensures Turns(text, i, PrintInner(inner), Blanked(PrintInner(inner)), M.Literal(quote), M.Literal(quote))
    decreases |inner|
  {
    hide M.ModeAt;
    hide M.MaskedAt;
    if inner != [] {
      var first := if inner[0].Plain? then [inner[0].c] else ['\\', inner[0].c];
      var rest := PrintInner(inner[1..]);
      AtConcat(text, i, first, rest);
      hide At;
      if inner[0].Plain? {
        MasksPlain(text, i, inner[0].c, quote);
      } else {
        MasksEscaped(text, i, inner[0].c, quote);
      }
      assert M.ModeAt(text, i + |first|) == M.Literal(quote);
      MasksInner(text, i + |first|, inner[1..], quote);
      hide Turns;
      Joins(text, i, first, Blanked(first), M.Literal(quote), M.Literal(quote), rest, Blanked(rest), M.Literal(quote));
      BlankedConcat(first, rest);
    } else {
      BlankedChar(' ');
      Nothing(text, i, M.Literal(quote));
    }
  }

  /** After a piece that does not run out the automaton is in code. */
  function ModeAfter(p: Piece, lineStart: bool): M.Mode {
    if !RunsOut(p) then M.Code(LineStartAfter(p, lineStart))
    else
      match p
      case Broken(quote, _, _) => M.Literal(quote)
      case LineComment(_, _) => M.LineComment
      case BlockComment(_, _) => M.BlockComment
      case _ => M.Directive(false)
  }

  function ModeAfterAll(pieces: seq<Piece>, lineStart: bool): M.Mode {
    if pieces == [] then M.Code(lineStart)
    else if |pieces| == 1 then ModeAfter(pieces[0], lineStart)
    else ModeAfterAll(pieces[1..], LineStartAfter(pieces[0], lineStart))
  }

  /** A piece is masked as it should be. */
  ghost predicate Handles(text: string, i: nat, p: Piece, lineStart: bool) {
    Turns(text, i, PrintPiece(p), MaskPiece(p), M.Code(lineStart), ModeAfter(p, lineStart))
  }

  lemma {:induction false} MasksQuoted(text: string, i: nat, quote: char, inner: seq<Inner>, tail: string,
      lineStart: bool, b: M.Mode)
    requires At(text, i, [quote] + (PrintInner(inner) + tail)) && GoodInner(inner, quote) && IsQuote(quote)
    requires M.ModeAt(text, i) == M.Code(lineStart)
    requires var k := i + 1 + |PrintInner(inner)|;
             At(text, k, tail) && M.ModeAt(text, k) == M.Literal(quote) ==>
               Turns(text, k, tail, tail, M.Literal(quote), b)
    ensures Turns(text, i, [quote] + (PrintInner(inner) + tail), [quote] + (Blanked(PrintInner(inner)) + tail),
                  M.Code(lineStart), b)
  {
    hide M.ModeAt;
    hide M.MaskedAt;
    hide PrintInner;
    hide Blanked;
    var s := PrintInner(inner);
    AtConcat(text, i, [quote], s + tail);
    AtConcat(text, i + 1, s, tail);
    AtChar(text, i, [quote], 0);
    hide At;
    Opens(text, i, quote, lineStart);
    assert M.ModeAt(text, i + 1) == M.Literal(quote);
    MasksInner(text, i + 1, inner, quote);
    assert M.ModeAt(text, i + 1 + |s|) == M.Literal(quote);
    hide Turns;
    Joins(text, i + 1, s, Blanked(s), M.Literal(quote), M.Literal(quote), tail, tail, b);
    Joins(text, i, [quote], [quote], M.Code(lineStart), M.Literal(quote), s + tail, Blanked(s) + tail, b);
  }

  lemma {:induction false} MasksLiteral(text: string, i: nat, p: Piece, lineStart: bool, rest: string)
    requires p.Literal? && At(text, i, PrintPiece(p)) && GoodPiece(p, lineStart, rest)
    requires M.ModeAt(text, i) == M.Code(lineStart)
    ensures Handles(text, i, p, lineStart)
  {
    hide M.ModeAt;
    hide M.MaskedAt;
    hide PrintInner;
    hide Blanked;
    hide Turns;
    var k := i + 1 + |PrintInner(p.inner)|;
    if At(text, k, [p.quote]) && M.ModeAt(text, k) == M.Literal(p.quote) {
      AtChar(text, k, [p.quote], 0);
      Closes(text, k, p.quote);
    }
    hide At;
    MasksQuoted(text, i, p.quote, p.inner, [p.quote], lineStart, M.Code(false));
  }

  lemma {:induction false} MasksBroken(text: string, i: nat, p: Piece, lineStart: bool, rest: string)
    requires p.Broken? && At(text, i, PrintPiece(p)) && GoodPiece(p, lineStart, rest)
    requires M.ModeAt(text, i) == M.Code(lineStart)
    ensures Handles(text, i, p, lineStart)
  {
    hide M.ModeAt;
    hide M.MaskedAt;
    hide PrintInner;
    hide Blanked;
    hide Turns;
    var k := i + 1 + |PrintInner(p.inner)|;
    var b := if p.ended then M.Code(false) else M.Literal(p.quote);
    if At(text, k, EndOfLine(p.ended)) && M.ModeAt(text, k) == M.Literal(p.quote) {
      if p.ended {
        AtChar(text, k, "\n", 0);
        Breaks(text, k, p.quote);
      } else {
        Nothing(text, k, M.Literal(p.quote));
      }
    }
    hide At;
    MasksQuoted(text, i, p.quote, p.inner, EndOfLine(p.ended), lineStart, b);
  }

  // ---- Comments ----

  lemma {:induction false} MasksSlashes(text: string, i: nat, lineStart: bool)
    requires At(text, i, "//") && M.ModeAt(text, i) == M.Code(lineStart)
    ensures Turns(text, i, "//", Blanked("//"), M.Code(lineStart), M.LineComment)
  {
    AtChar(text, i, "//", 0);
    AtChar(text, i, "//", 1);
    One(text, i, '/', ' ', M.Code(lineStart), M.LineComment);
    One(text, i + 1, '/', ' ', M.LineComment, M.LineComment);
    assert Blanked("//") == "  " && "//" == "/" + "/" && "  " == " " + " ";
    hide Turns;
    Joins(text, i, "/", " ", M.Code(lineStart), M.LineComment, "/", " ", M.LineComment);
  }

  lemma {:induction false} RemarkStep(text: string, i: nat, c: char)
    requires i < |text| && text[i] == c && c != '\n' && M.ModeAt(text, i) == M.LineComment
    ensures Turns(text, i, [c], Blanked([c]), M.LineComment, M.LineComment)
  {
    BlankedChar(c);
    One(text, i, c, ' ', M.LineComment, M.LineComment);
  }

  lemma {:induction false} FirstOf(text: string, i: nat, t: string)
    requires t != "" && At(text, i, t)
    ensures At(text, i, [t[0]]) && At(text, i + 1, t[1..]) && text[i] == t[0] && t == [t[0]] + t[1..]
    ensures Blanked(t) == Blanked([t[0]]) + Blanked(t[1..])
  {
    assert t == [t[0]] + t[1..];
    AtConcat(text, i, [t[0]], t[1..]);
    AtChar(text, i, t, 0);
    BlankedConcat([t[0]], t[1..]);
  }

  lemma {:induction false} MasksRemarkText(text: string, i: nat, t: string)
    requires At(text, i, t) && '\n' !in t && M.ModeAt(text, i) == M.LineComment
    ensures Turns(text, i, t, Blanked(t), M.LineComment, M.LineComment)
    decreases |t|
  {
    hide M.ModeAt;
    hide M.MaskedAt;
    hide Blanked;
    BlankedChar(' ');
    if t == "" {
      Nothing(text, i, M.LineComment);
    } else {
      FirstOf(text, i, t);
      hide At;
      RemarkStep(text, i, t[0]);
      assert M.ModeAt(text, i + 1) == M.LineComment;
      MasksRemarkText(text, i + 1, t[1..]);
      hide Turns;
      Joins(text, i, [t[0]], Blanked([t[0]]), M.LineComment, M.LineComment, t[1..], Blanked(t[1..]), M.LineComment);
    }
  }

  lemma {:induction false} LineEnds(text: string, i: nat, a: M.Mode)
    requires i < |text| && text[i] == '\n' && M.ModeAt(text, i) == a && (a == M.LineComment || a == M.Directive(false))
    ensures Turns(text, i, "\n", "\n", a, M.Code(true))
  {
    One(text, i, '\n', '\n', a, M.Code(true));
  }

  lemma {:induction false} EndOfLineStays(ended: bool)
    ensures Blanked(EndOfLine(ended)) == EndOfLine(ended)
  {
  }

  /** A stretch of a comment or a directive up to the end of its line, or of the file. */
  lemma {:induction false} MasksToEnd(text: string, i: nat, s: string, ended: bool, a: M.Mode, b: M.Mode)
      returns (c: M.Mode)
    requires At(text, i, s + EndOfLine(ended)) && Turns(text, i, s, Blanked(s), a, b)
    requires b == M.LineComment || b == M.Directive(false)
    ensures Turns(text, i, s + EndOfLine(ended), Blanked(s + EndOfLine(ended)), a, c)
    ensures c == if ended then M.Code(true) else b
  {
    hide M.ModeAt;
    hide M.MaskedAt;
    BlankedConcat(s, EndOfLine(ended));
    EndOfLineStays(ended);
    hide Blanked;
    AtConcat(text, i, s, EndOfLine(ended));
    c := if ended then M.Code(true) else b;
    if ended {
      AtChar(text, i + |s|, "\n", 0);
      LineEnds(text, i + |s|, b);
    } else {
      Nothing(text, i + |s|, b);
    }
    hide Turns;
    hide At;
    Joins(text, i, s, Blanked(s), a, b, EndOfLine(ended), EndOfLine(ended), c);
  }

  lemma {:induction false} MasksLineComment(text: string, i: nat, p: Piece, lineStart: bool, rest: string)
    requires p.LineComment? && At(text, i, PrintPiece(p)) && GoodPiece(p, lineStart, rest)
    requires M.ModeAt(text, i) == M.Code(lineStart)
    ensures Handles(text, i, p, lineStart)
  {
    hide M.ModeAt;
    hide M.MaskedAt;
    hide Blanked;
    var s := p.text + EndOfLine(p.ended);
    AtConcat(text, i, "//", s);
    MasksSlashes(text, i, lineStart);
    assert M.ModeAt(text, i + 2) == M.LineComment;
    AtConcat(text, i + 2, p.text, EndOfLine(p.ended));
    MasksRemarkText(text, i + 2, p.text);
    var c := MasksToEnd(text, i + 2, p.text, p.ended, M.LineComment, M.LineComment);
    hide Turns;
    hide At;
    BlankedConcat("//", s);
    Joins(text, i, "//", Blanked("//"), M.Code(lineStart), M.LineComment, s, Blanked(s), c);
  }

  lemma {:induction false} MasksOpen(text: string, i: nat, lineStart: bool)
    requires At(text, i, "/*") && M.ModeAt(text, i) == M.Code(lineStart)
    ensures Turns(text, i, "/*", Blanked("/*"), M.Code(lineStart), M.BlockComment)
  {
    AtChar(text, i, "/*", 0);
    AtChar(text, i, "/*", 1);
    One(text, i, '/', ' ', M.Code(lineStart), M.BlockOpen);
    One(text, i + 1, '*', ' ', M.BlockOpen, M.BlockComment);
    assert Blanked("/*") == "  " && "/*" == "/" + "*" && "  " == " " + " ";
    hide Turns;
    Joins(text, i, "/", " ", M.Code(lineStart), M.BlockOpen, "*", " ", M.BlockComment);
  }

  lemma {:induction false} MasksClose(text: string, i: nat)
    requires At(text, i, "*/") && M.ModeAt(text, i) == M.BlockComment
    ensures Turns(text, i, "*/", Blanked("*/"), M.BlockComment, M.Code(false))
  {
    AtChar(text, i, "*/", 0);
    AtChar(text, i, "*/", 1);
    One(text, i, '*', ' ', M.BlockComment, M.BlockClose);
    One(text, i + 1, '/', ' ', M.BlockClose, M.Code(false));
    assert Blanked("*/") == "  " && "*/" == "*" + "/" && "  " == " " + " ";
    hide Turns;
    Joins(text, i, "*", " ", M.BlockComment, M.BlockClose, "/", " ", M.Code(false));
  }

  lemma {:induction false} BlockStep(text: string, i: nat, c: char)
    requires i < |text| && text[i] == c && M.ModeAt(text, i) == M.BlockComment
    requires c == '*' && i + 1 < |text| ==> text[i + 1] != '/'
    ensures Turns(text, i, [c], Blanked([c]), M.BlockComment, M.BlockComment)
  {
    BlankedChar(c);
    One(text, i, c, if c == '\n' then '\n' else ' ', M.BlockComment, M.BlockComment);
  }

  lemma {:induction false} MasksBlockText(text: string, i: nat, t: string)
    requires At(text, i, t) && Unclosed(t) && M.ModeAt(text, i) == M.BlockComment
    requires i + |t| < |text| ==> text[i + |t|] != '/'
    ensures Turns(text, i, t, Blanked(t), M.BlockComment, M.BlockComment)
    decreases |t|
  {
    hide M.ModeAt;
    hide M.MaskedAt;
    hide Blanked;
    BlankedChar(' ');
    if t == "" {
      Nothing(text, i, M.BlockComment);
    } else {
      FirstOf(text, i, t);
      if |t| > 1 {
        AtChar(text, i, t, 1);
      }
      hide At;
      BlockStep(text, i, t[0]);
      assert M.ModeAt(text, i + 1) == M.BlockComment;
      MasksBlockText(text, i + 1, t[1..]);
      hide Turns;
      Joins(text, i, [t[0]], Blanked([t[0]]), M.BlockComment, M.BlockComment, t[1..], Blanked(t[1..]),
          M.BlockComment);
    }
  }

  /** The rest of a block comment, with its end if it has one. */
  lemma {:induction false} MasksBlockRest(text: string, i: nat, t: string, ended: bool)
    requires At(text, i, t + if ended then "*/" else "") && Unclosed(t) && M.ModeAt(text, i) == M.BlockComment
    requires !ended ==> i + |t| == |text|
    ensures var s := t + if ended then "*/" else "";
            Turns(text, i, s, Blanked(s), M.BlockComment, if ended then M.Code(false) else M.BlockComment)
  {
    hide M.ModeAt;
    hide M.MaskedAt;
    hide Blanked;
    var close := if ended then "*/" else "";
    AtConcat(text, i, t, close);
    BlankedConcat(t, close);
    BlankedChar(' ');
    if ended {
      AtChar(text, i + |t|, close, 0);
      MasksBlockText(text, i, t);
      MasksClose(text, i + |t|);
    } else {
      MasksBlockText(text, i, t);
      Nothing(text, i + |t|, M.BlockComment);
    }
    hide Turns;
    hide At;
    hide Unclosed;
    Joins(text, i, t, Blanked(t), M.BlockComment, M.BlockComment, close, Blanked(close),
        if ended then M.Code(false) else M.BlockComment);
  }

  lemma {:induction false} MasksBlockComment(text: string, i: nat, p: Piece, lineStart: bool, rest: string)
    requires p.BlockComment? && At(text, i, PrintPiece(p)) && GoodPiece(p, lineStart, rest)
    requires RunsOut(p) ==> i + |PrintPiece(p)| == |text|
    requires M.ModeAt(text, i) == M.Code(lineStart)
    ensures Handles(text, i, p, lineStart)
  {
    hide M.ModeAt;
    hide M.MaskedAt;
    hide Blanked;
    hide Unclosed;
    var s := p.text + if p.ended then "*/" else "";
    AtConcat(text, i, "/*", s);
    hide At;
    MasksOpen(text, i, lineStart);
    assert M.ModeAt(text, i + 2) == M.BlockComment;
    hide Turns;
    MasksBlockRest(text, i + 2, p.text, p.ended);
    BlankedConcat("/*", s);
    Joins(text, i, "/*", Blanked("/*"), M.Code(lineStart), M.BlockComment, s, Blanked(s),
        if p.ended then M.Code(false) else M.BlockComment);
  }

  // ---- Preprocessor lines ----

  lemma {:induction false} DirectiveStep(text: string, i: nat, c: char, escaped: bool)
    requires i < |text| && text[i] == c && c != '\n' && M.ModeAt(text, i) == M.Directive(escaped)
    ensures Turns(text, i, [c], Blanked([c]), M.Directive(escaped), M.Directive(c == '\\' || (IsBlank(c) && escaped)))
  {
    BlankedChar(c);
    One(text, i, c, ' ', M.Directive(escaped), M.Directive(c == '\\' || (IsBlank(c) && escaped)));
  }

  lemma {:induction false} ContinuesStep(line: string, n: nat)
    requires n < |line|
    ensures line[..n] + [line[n]] == line[..n + 1]
    ensures Continues(line[..n + 1]) <==> line[n] == '\\' || (IsBlank(line[n]) && Continues(line[..n]))
    ensures Blanked(line[..n + 1]) == Blanked(line[..n]) + Blanked([line[n]])
  {
    assert line[..n + 1][..n] == line[..n];
    assert line[..n] + [line[n]] == line[..n + 1];
    BlankedConcat(line[..n], [line[n]]);
  }

  lemma {:induction false} MasksDirectiveLine(text: string, i: nat, line: string, n: nat)
    requires At(text, i, line) && '\n' !in line && M.ModeAt(text, i) == M.Directive(false) && n <= |line|
    ensures Turns(text, i, line[..n], Blanked(line[..n]), M.Directive(false), M.Directive(Continues(line[..n])))
    decreases n
  {
    hide M.ModeAt;
    hide M.MaskedAt;
    hide Blanked;
    if n > 0 {
      MasksDirectiveLine(text, i, line, n - 1);
      AtChar(text, i, line, n - 1);
      hide At;
      ContinuesStep(line, n - 1);
      DirectiveStep(text, i + n - 1, line[n - 1], Continues(line[..n - 1]));
      hide Turns;
      hide Continues;
      Joins(text, i, line[..n - 1], Blanked(line[..n - 1]), M.Directive(false), M.Directive(Continues(line[..n - 1])),
          [line[n - 1]], Blanked([line[n - 1]]), M.Directive(Continues(line[..n])));
    } else {
      assert line[..0] == "";
      BlankedChar(' ');
      Nothing(text, i, M.Directive(false));
    }
  }

  lemma {:induction false} NextLine(text: string, i: nat)
    requires i < |text| && text[i] == '\n' && M.ModeAt(text, i) == M.Directive(true)
    ensures Turns(text, i, "\n", Blanked("\n"), M.Directive(true), M.Directive(false))
  {
    BlankedChar('\n');
    One(text, i, '\n', '\n', M.Directive(true), M.Directive(false));
  }

  lemma {:induction false} LaterLinesAreGood(lines: seq<string>)
    requires GoodLines(lines)
    ensures '\n' !in lines[0] && (Continues(lines[0]) <==> |lines| > 1)
    ensures |lines| > 1 ==> GoodLines(lines[1..])
  {
    hide Continues;
  }

  lemma {:induction false} MasksDirectiveLines(text: string, i: nat, lines: seq<string>)
    requires At(text, i, Joined(lines)) && GoodLines(lines) && M.ModeAt(text, i) == M.Directive(false)
    ensures Turns(text, i, Joined(lines), Blanked(Joined(lines)), M.Directive(false), M.Directive(false))
    decreases |lines|
  {
    hide M.ModeAt;
    hide M.MaskedAt;
    hide Continues;
    hide Blanked;
    LaterLinesAreGood(lines);
    var line := lines[0];
    assert line[..|line|] == line;
    if |lines| == 1 {
      MasksDirectiveLine(text, i, line, |line|);
    } else {
      hide GoodLines;
      var rest := Joined(lines[1..]);
      AtConcat(text, i, line, "\n" + rest);
      AtConcat(text, i + |line|, "\n", rest);
      AtChar(text, i + |line|, "\n", 0);
      MasksDirectiveLine(text, i, line, |line|);
      hide At;
      NextLine(text, i + |line|);
      assert M.ModeAt(text, i + |line| + 1) == M.Directive(false);
      MasksDirectiveLines(text, i + |line| + 1, lines[1..]);
      hide Turns;
      BlankedConcat("\n", rest);
      BlankedConcat(line, "\n" + rest);
      Joins(text, i + |line|, "\n", Blanked("\n"), M.Directive(true), M.Directive(false), rest, Blanked(rest),
          M.Directive(false));
      Joins(text, i, line, Blanked(line), M.Directive(false), M.Directive(true), "\n" + rest, Blanked("\n" + rest),
          M.Directive(false));
    }
  }

  lemma {:induction false} Starts(text: string, i: nat)
    requires i < |text| && text[i] == '#' && M.ModeAt(text, i) == M.Code(true)
    ensures Turns(text, i, "#", Blanked("#"), M.Code(true), M.Directive(false))
  {
    BlankedChar('#');
    One(text, i, '#', ' ', M.Code(true), M.Directive(false));
  }

  lemma {:induction false} MasksDirective(text: string, i: nat, p: Piece, lineStart: bool, rest: string)
    requires p.Directive? && At(text, i, PrintPiece(p)) && GoodPiece(p, lineStart, rest)
    requires M.ModeAt(text, i) == M.Code(lineStart)
    ensures Handles(text, i, p, lineStart)
  {
    hide M.ModeAt;
    hide M.MaskedAt;
    hide Blanked;
    hide Joined;
    hide GoodLines;
    var s := Joined(p.lines);
    AtConcat(text, i, "#", s + EndOfLine(p.ended));
    AtConcat(text, i + 1, s, EndOfLine(p.ended));
    AtChar(text, i, "#", 0);
    Starts(text, i);
    assert M.ModeAt(text, i + 1) == M.Directive(false);
    MasksDirectiveLines(text, i + 1, p.lines);
    var c := MasksToEnd(text, i + 1, s, p.ended, M.Directive(false), M.Directive(false));
    hide Turns;
    hide At;
    var t := s + EndOfLine(p.ended);
    BlankedConcat("#", t);
    Joins(text, i, "#", Blanked("#"), M.Code(true), M.Directive(false), t, Blanked(t), c);
  }

  // ---- Whole sources ----

  lemma {:induction false} MasksCodePiece(text: string, i: nat, p: Piece, lineStart: bool)
    requires p.Code? && At(text, i, PrintPiece(p)) && GoodPiece(p, lineStart, text[i + |PrintPiece(p)|..])
    requires M.ModeAt(text, i) == M.Code(lineStart)
    ensures Handles(text, i, p, lineStart)
  {
    hide M.ModeAt;
    hide M.MaskedAt;
    var rest := text[i + |p.text|..];
    assert text[i..i + |p.text + rest|] == p.text + rest;
    MasksCode(text, i, p.text, lineStart, rest, |p.text|);
    hide Turns;
    assert p.text[..|p.text|] == p.text;
  }

  lemma {:induction false} MasksPiece(text: string, i: nat, p: Piece, lineStart: bool)
    requires At(text, i, PrintPiece(p)) && GoodPiece(p, lineStart, text[i + |PrintPiece(p)|..])
    requires RunsOut(p) ==> i + |PrintPiece(p)| == |text|
    requires M.ModeAt(text, i) == M.Code(lineStart)
    ensures Handles(text, i, p, lineStart)
  {
    var rest := text[i + |PrintPiece(p)|..];
    hide *;
    match p
    case Code(t) => MasksCodePiece(text, i, p, lineStart);
    case Literal(_, _) => MasksLiteral(text, i, p, lineStart, rest);
    case Broken(_, _, _) => MasksBroken(text, i, p, lineStart, rest);
    case LineComment(_, _) => MasksLineComment(text, i, p, lineStart, rest);
    case BlockComment(_, _) => MasksBlockComment(text, i, p, lineStart, rest);
    case Directive(_, _) => MasksDirective(text, i, p, lineStart, rest);
  }

  lemma {:induction false} Split(text: string, i: nat, a: string, b: string)
    requires i <= |text| && text[i..] == a + b
    ensures At(text, i, a) && text[i + |a|..] == b
  {
    assert text[i..i + |a|] == text[i..][..|a|] == a;
    assert text[i + |a|..] == text[i..][|a|..] == b;
  }

  lemma {:induction false} MasksPieces(text: string, i: nat, pieces: seq<Piece>, lineStart: bool)
    requires i <= |text| && text[i..] == Print(pieces) && GoodPieces(pieces, lineStart)
    requires M.ModeAt(text, i) == M.Code(lineStart)
    ensures Turns(text, i, Print(pieces), MaskPieces(pieces), M.Code(lineStart), ModeAfterAll(pieces, lineStart))
    decreases |pieces|
  {
    hide M.ModeAt;
    hide M.MaskedAt;
    hide GoodPiece;
    hide LineStartAfter;
    hide MaskPiece;
    hide PrintPiece;
    hide RunsOut;
    if pieces != [] {
      var p, rest := pieces[0], Print(pieces[1..]);
      var s := PrintPiece(p);
      Split(text, i, s, rest);
      hide At;
      MasksPiece(text, i, p, lineStart);
      var b, c := ModeAfter(p, lineStart), ModeAfterAll(pieces, lineStart);
      if |pieces| == 1 {
        assert pieces[1..] == [];
        Nothing(text, i + |s|, b);
      } else {
        MasksPieces(text, i + |s|, pieces[1..], LineStartAfter(p, lineStart));
      }
      hide Turns;
      Joins(text, i, s, MaskPiece(p), M.Code(lineStart), b, rest, MaskPieces(pieces[1..]), c);
    } else {
      Nothing(text, i, M.Code(lineStart));
    }
  }

  /** Masking a printed source blanks its comments, directives and the contents of its literals, and
      nothing else. */
  lemma {:induction false} MaskingIsPiecewise(pieces: seq<Piece>)
    requires GoodPieces(pieces, true)
    ensures M.Masked(Print(pieces)) == MaskPieces(pieces)
  {
    var text := Print(pieces);
    assert text[0..] == text;
    MasksPieces(text, 0, pieces, true);
    forall k | 0 <= k < |text| ensures M.Masked(text)[k] == MaskPieces(pieces)[k] {
      assert M.MaskedAt(text, 0 + k) == MaskPieces(pieces)[k];
    }
  }
}

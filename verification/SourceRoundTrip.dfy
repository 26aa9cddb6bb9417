/**
The round trip from whole sources: definitions, blocks and declarations with comments, literals and
preprocessor lines in them are read back to the definitions and their lines.
*/
module SourceRoundTrip {
  import opened CParser
  import opened CGrammar
  import opened CRoundTrip
  import S = Sources
  import Reading

  datatype Section =
    | Bare(item: Item)
    | Wrapped(before: seq<S.Piece>, head: Head, gap: string, inner: Unit, tail: seq<S.Piece>)
    | Defined(before: seq<S.Piece>, lead: string, name: string, gap: string, params: seq<S.Piece>, parts: seq<Part>,
              pad: string, body: seq<S.Piece>)

  datatype Unit = End | Then(first: Section, rest: Unit)

  // ---- The source as pieces ----

  function PlainInner(text: string): seq<S.Inner> {
    seq(|text|, i requires 0 <= i < |text| => S.Plain(text[i]))
  }

  function HeadPieces(head: Head): seq<S.Piece> {
    match head
    case Linkage(language) => [S.Code("extern "), S.Literal('"', PlainInner(language))]
    case _ => [S.Code(PrintHead(head))]
  }

  function SectionPieces(section: Section): seq<S.Piece> {
    match section
    case Bare(item) => [S.Code(PrintItem(item))]
    case Wrapped(before, head, gap, inner, tail) =>
      (before + (HeadPieces(head) + [S.Code(gap)])) + ([S.Code("{")] + (Pieces(inner) + (tail + [S.Code("}")])))
    case Defined(before, lead, name, gap, params, parts, pad, body) =>
      before + ([S.Code(lead + (name + (gap + "(")))]
                + (params + ([S.Code(")" + (PrintParts(parts) + (pad + "{")))] + (body + [S.Code("}")]))))
  }

  function Pieces(unit: Unit): seq<S.Piece> {
    match unit
    case End => []
    case Then(first, rest) => SectionPieces(first) + Pieces(rest)
  }

  // ---- What masking leaves of it ----

  function MaskedHead(head: Head): Head {
    match head
    case Linkage(language) => Linkage(S.Blanked(language))
    case _ => head
  }

  function MaskedSection(section: Section): Item {
    match section
    case Bare(item) => item
    case Wrapped(before, head, gap, inner, tail) =>
      Block(S.MaskPieces(before), MaskedHead(head), gap, MaskedUnit(inner), S.MaskPieces(tail))
    case Defined(before, lead, name, gap, params, parts, pad, body) =>
      Function([], S.MaskPieces(before) + lead, name, gap, S.MaskPieces(params), parts, pad, S.MaskPieces(body))
  }

  function MaskedUnit(unit: Unit): Items {
    match unit
    case End => Nil
    case Then(first, rest) => Cons(MaskedSection(first), MaskedUnit(rest))
  }

  lemma {:induction false} MaskPiecesConcat(a: seq<S.Piece>, b: seq<S.Piece>)
    ensures S.MaskPieces(a + b) == S.MaskPieces(a) + S.MaskPieces(b)
    decreases |a|
  {
    hide S.MaskPiece;
    if a == [] {
      assert a + b == b;
    } else {
      MaskPiecesConcat(a[1..], b);
      assert (a + b)[1..] == a[1..] + b && (a + b)[0] == a[0];
    }
  }

  lemma {:induction false} MaskCode(text: string)
    ensures S.MaskPieces([S.Code(text)]) == text
  {
    assert [S.Code(text)][1..] == [];
  }

  lemma {:induction false} PrintPlainInner(text: string)
    ensures S.PrintInner(PlainInner(text)) == text
    decreases |text|
  {
    if text != "" {
      PrintPlainInner(text[1..]);
      assert PlainInner(text)[1..] == PlainInner(text[1..]);
      assert text == [text[0]] + text[1..];
    }
  }

  lemma {:induction false} MaskHead(head: Head)
    ensures S.MaskPieces(HeadPieces(head)) == PrintHead(MaskedHead(head))
  {
    if head.Linkage? {
      var literal := S.Literal('"', PlainInner(head.language));
      PrintPlainInner(head.language);
      MaskPiecesConcat([S.Code("extern ")], [literal]);
      MaskCode("extern ");
      assert [literal][1..] == [] && S.MaskPieces([literal]) == S.MaskPiece(literal);
      assert [S.Code("extern ")] + [literal] == HeadPieces(head);
    } else {
      MaskCode(PrintHead(head));
    }
  }

  lemma {:induction false} MaskDefinition(section: Section)
    requires section.Defined?
    ensures S.MaskPieces(SectionPieces(section)) == PrintItem(MaskedSection(section))
  {
    var Defined(before, lead, name, gap, params, parts, pad, body) := section;
    var front := lead + (name + (gap + "("));
    var middle := ")" + (PrintParts(parts) + (pad + "{"));
    MaskCode(front);
    MaskCode(middle);
    MaskCode("}");
    MaskPiecesConcat(body, [S.Code("}")]);
    MaskPiecesConcat([S.Code(middle)], body + [S.Code("}")]);
    MaskPiecesConcat(params, [S.Code(middle)] + (body + [S.Code("}")]));
    MaskPiecesConcat([S.Code(front)], params + ([S.Code(middle)] + (body + [S.Code("}")])));
    MaskPiecesConcat(before, [S.Code(front)] + (params + ([S.Code(middle)] + (body + [S.Code("}")]))));
    DefinitionText(S.MaskPieces(before), lead, name, gap, S.MaskPieces(params), parts, pad, S.MaskPieces(body));
  }

  lemma {:induction false} DefinitionText(before: string, lead: string, name: string, gap: string, params: string,
      parts: seq<Part>, pad: string, body: string)
    ensures before
            + ((lead + (name + (gap + "("))) + (params + ((")" + (PrintParts(parts) + (pad + "{"))) + (body + "}"))))
            == PrintItem(Function([], before + lead, name, gap, params, parts, pad, body))
  {
    hide PrintParts;
    assert PrintMacros([]) == "";
  }

  lemma {:induction false} MaskSection(section: Section)
    ensures S.MaskPieces(SectionPieces(section)) == PrintItem(MaskedSection(section))
    decreases section
  {
    match section
    case Bare(item) => MaskCode(PrintItem(item));
    case Defined(_, _, _, _, _, _, _, _) => MaskDefinition(section);
    case Wrapped(before, head, gap, inner, tail) =>
      MaskUnit(inner);
      hide S.MaskPieces;
      hide MaskedUnit;
      hide Print;
      hide PrintHead;
      hide HeadPieces;
      hide MaskedHead;
      MaskHead(head);
      MaskCode(gap);
      MaskCode("{");
      MaskCode("}");
      MaskPiecesConcat(HeadPieces(head), [S.Code(gap)]);
      MaskPiecesConcat(before, HeadPieces(head) + [S.Code(gap)]);
      MaskPiecesConcat(tail, [S.Code("}")]);
      MaskPiecesConcat(Pieces(inner), tail + [S.Code("}")]);
      MaskPiecesConcat([S.Code("{")], Pieces(inner) + (tail + [S.Code("}")]));
      MaskPiecesConcat(before + (HeadPieces(head) + [S.Code(gap)]),
          [S.Code("{")] + (Pieces(inner) + (tail + [S.Code("}")])));
      assert S.MaskPieces(before) + (PrintHead(MaskedHead(head)) + gap)
          == S.MaskPieces(before + (HeadPieces(head) + [S.Code(gap)]));
  }

  lemma {:induction false} MaskUnit(unit: Unit)
    ensures S.MaskPieces(Pieces(unit)) == Print(MaskedUnit(unit))
    decreases unit
  {
    match unit
    case End =>
    case Then(first, rest) =>
      MaskSection(first);
      MaskUnit(rest);
      MaskPiecesConcat(SectionPieces(first), Pieces(rest));
  }

  /**
  A source printed from any such unit, with comments, literals and preprocessor lines in bodies, in
  parameter lists and in front of definitions, is read back to exactly its definitions and their lines.
  */
  lemma {:induction false} SourceRoundTrip(unit: Unit, pad: seq<S.Piece>)
    requires S.GoodPieces(Pieces(unit) + pad, true) && Good(MaskedUnit(unit)) && Quiet(S.MaskPieces(pad))
    ensures Extracted(S.Print(Pieces(unit) + pad)) == Spans(MaskedUnit(unit), 1)
  {
    S.MaskingIsPiecewise(Pieces(unit) + pad);
    MaskPiecesConcat(Pieces(unit), pad);
    MaskUnit(unit);
    hide *;
    ExtractorUndoesPrinter(S.Print(Pieces(unit) + pad), MaskedUnit(unit), S.MaskPieces(pad));
  }

  // ---- A brace behind an escaped quote ----

  /** The body is a literal, of an escaped quote and a closing brace, and a line break. */
  function QuotedBody(): seq<S.Piece> {
    [S.Literal('"', [S.Escaped('"'), S.Plain('}')]), S.Code("\n")]
  }

  function QuotedUnit(): Unit {
    Then(Defined([], "", "f", "", [], [], "", QuotedBody()), End)
  }

  lemma {:induction false} QuotedPieces()
    ensures Pieces(QuotedUnit()) + [] ==
            [S.Code("f("), S.Code("){"), S.Literal('"', [S.Escaped('"'), S.Plain('}')]), S.Code("\n"), S.Code("}")]
  {
    assert "" + ("f" + ("" + "(")) == "f(" && ")" + (PrintParts([]) + ("" + "{")) == "){";
  }

  lemma {:induction false} QuotedLiteral()
    ensures S.PrintInner([S.Escaped('"'), S.Plain('}')]) == "\\\"}" && S.Blanked("\\\"}") == "   "
  {
    var rest := [S.Plain('}')];
    assert [S.Escaped('"'), S.Plain('}')][1..] == rest && rest[1..] == [];
    assert S.PrintInner([]) == "" && S.PrintInner(rest) == "}";
  }

  lemma {:induction false} QuotedPrint()
    ensures S.Print([S.Literal('"', [S.Escaped('"'), S.Plain('}')]), S.Code("\n"), S.Code("}")]) == "\"\\\"}\"\n}"
  {
    QuotedLiteral();
    var literal := S.Literal('"', [S.Escaped('"'), S.Plain('}')]);
    assert S.PrintPiece(literal) == "\"\\\"}\"";
    hide S.PrintInner;
    var end := [S.Code("\n"), S.Code("}")];
    assert [S.Code("}")][1..] == [] && end[1..] == [S.Code("}")];
    assert S.Print([S.Code("}")]) == "}";
    assert S.Print(end) == "\n}";
    assert ([literal] + end)[1..] == end && [literal] + end == [literal, S.Code("\n"), S.Code("}")];
  }

  lemma {:induction false} QuotedMask()
    ensures S.MaskPieces(QuotedBody()) == "\"   \"\n"
  {
    QuotedLiteral();
    var literal := S.Literal('"', [S.Escaped('"'), S.Plain('}')]);
    assert S.MaskPiece(literal) == "\"   \"";
    MaskCode("\n");
    assert QuotedBody()[1..] == [S.Code("\n")];
  }

  lemma {:induction false} QuotedTexts()
    ensures S.Print(Pieces(QuotedUnit()) + []) == "f(){\"\\\"}\"\n}"
    ensures S.MaskPieces(QuotedBody()) == "\"   \"\n"
  {
    QuotedPieces();
    QuotedPrint();
    QuotedMask();
    var body := [S.Literal('"', [S.Escaped('"'), S.Plain('}')]), S.Code("\n"), S.Code("}")];
    var rest := [S.Code("){")] + body;
    assert [S.Code("f(")] + rest == Pieces(QuotedUnit()) + [];
    PrintCons(S.Code("f("), rest);
    PrintCons(S.Code("){"), body);
    hide Pieces;
    hide S.MaskPieces;
    hide S.Print;
  }

  lemma {:induction false} PrintCons(p: S.Piece, rest: seq<S.Piece>)
    ensures S.Print([p] + rest) == S.PrintPiece(p) + S.Print(rest)
  {
    assert ([p] + rest)[1..] == rest;
  }

  /** Good pieces with another one in front. */
  lemma {:induction false} GoodCons(p: S.Piece, rest: seq<S.Piece>, lineStart: bool)
    requires S.GoodPiece(p, lineStart, S.Print(rest)) && S.GoodPieces(rest, S.LineStartAfter(p, lineStart))
    requires !S.RunsOut(p)
    ensures S.GoodPieces([p] + rest, lineStart)
  {
    assert ([p] + rest)[1..] == rest;
  }

  lemma {:induction false} QuotedIsGood()
    ensures S.GoodPieces(Pieces(QuotedUnit()) + [], true)
  {
    QuotedPieces();
    var literal := S.Literal('"', [S.Escaped('"'), S.Plain('}')]);
    var last := [S.Code("}")] + [];
    var end := [S.Code("\n")] + last;
    var body := [literal] + end;
    var params := [S.Code("){")] + body;
    assert [S.Code("f(")] + params == Pieces(QuotedUnit()) + [];
    NoSlashes("}", true, S.Print([]));
    NoSlashes("\n", false, S.Print(last));
    NoSlashes("){", false, S.Print(body));
    NoSlashes("f(", true, S.Print(params));
    LineStarts();
    assert S.GoodInner(literal.inner, '"') && S.IsQuote('"');
    assert S.GoodPieces([], false);
    hide S.GoodCode;
    hide S.Print;
    hide Pieces;
    hide S.AtLineStart;
    hide S.GoodInner;
    hide S.GoodPieces;
    GoodCons(S.Code("}"), [], true);
    GoodCons(S.Code("\n"), last, false);
    GoodCons(literal, end, false);
    GoodCons(S.Code("){"), body, false);
    GoodCons(S.Code("f("), params, true);
  }

  lemma {:induction false} LineStarts()
    ensures !S.AtLineStart("){", false) && !S.AtLineStart("f(", true) && !S.AtLineStart("}", true)
    ensures S.AtLineStart("\n", false)
  {
  }

  lemma {:induction false} NoSlashes(text: string, lineStart: bool, rest: string)
    requires forall k :: 0 <= k < |text| ==> text[k] != '"' && text[k] != '\'' && text[k] != '#' && text[k] != '/'
    ensures S.GoodCode(text, lineStart, rest)
  {
  }

  lemma {:induction false} QuotedSpans()
    ensures Good(MaskedUnit(QuotedUnit()))
    ensures Spans(MaskedUnit(QuotedUnit()), 1) == [FunctionSpan("f", 1, 2)]
  {
    QuotedTexts();
    var f := Function([], "", "f", "", "", [], "", "\"   \"\n");
    assert S.MaskPieces([]) == "" && "" + "" == "";
    assert MaskedUnit(QuotedUnit()) == Cons(f, Nil);
    QuotedFunction(f);
  }

  lemma {:induction false} QuotedText(f: Item)
    requires f == Function([], "", "f", "", "", [], "", "\"   \"\n")
    ensures PrintItem(f) == "f(){\"   \"\n}"
  {
    assert PrintMacros([]) == "" && PrintParts([]) == "";
  }

  lemma {:induction false} QuotedNewlines()
    ensures Newlines("f(){\"   \"\n}") == 1
  {
    assert "f(){\"   \"\n}" == "f(){\"   \"" + ("\n" + "}");
    NewlinesConcat("f(){\"   \"", "\n" + "}");
    NewlinesConcat("\n", "}");
    Reading.NoNewlines("f(){\"   \"");
    Reading.NoNewlines("}");
    assert Newlines("\n") == 1 by { assert "\n"[..0] == ""; }
  }

  lemma {:induction false} QuotedGood(f: Item)
    requires f == Function([], "", "f", "", "", [], "", "\"   \"\n")
    ensures Good(Cons(f, Nil))
  {
    assert Good(Nil);
  }

  lemma {:induction false} QuotedFunction(f: Item)
    requires f == Function([], "", "f", "", "", [], "", "\"   \"\n")
    ensures Good(Cons(f, Nil)) && Spans(Cons(f, Nil), 1) == [FunctionSpan("f", 1, 2)]
  {
    QuotedGood(f);
    QuotedText(f);
    QuotedNewlines();
    hide PrintItem;
    hide Good;
    var text := "f(){\"   \"\n}";
    assert SkipWs(text, 0) == 0 && text[..0] == "";
    assert Spans(Nil, 2) == [];
  }

  /** An escaped quote does not close its literal: the brace behind it does not end the function. */
  lemma {:induction false} EscapedQuoteStaysInside()
    ensures Extracted("f(){\"\\\"}\"\n}") == [FunctionSpan("f", 1, 2)]
  {
    QuotedTexts();
    QuotedIsGood();
    QuotedSpans();
    hide *;
    NothingQuiet();
    SourceRoundTrip(QuotedUnit(), []);
  }

  lemma {:induction false} NothingQuiet()
    ensures Quiet(S.MaskPieces([]))
  {
  }
}

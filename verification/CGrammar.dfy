/**
A printer for C and C++ translation units, and how pieces of printed text are read back.

The grammar covers nested namespaces, linkage blocks and class bodies, prototypes and other
declarations, brace initialisers, and function definitions with any balanced parameter list and
body, with white space, macro calls in front and annotations behind. Since the printed text is
compared with the source after masking, comments, directives and literal contents may stand
wherever the grammar has white space.
*/
module CGrammar {
  import opened Masking
  import opened CParser

  /** What may stand between a parameter list and the body. */
  datatype Part = Part(gap: string, token: Token)

  datatype Token =
    | Word(word: string)
    | Group(word: string, sep: string, inner: string)
    | Arrow
    | Colon
    | Comma

  /** A macro call without a semicolon. */
  datatype Macro = Macro(lead: string, name: string, gap: string, args: string)

  datatype Head =
    | Namespace(isInline: bool, name: string)
    | Linkage(language: string)
    | TypeHead(before: string, keyword: string, after: string)

  datatype Item =
    | Statement(text: string)
    | Prototype(lead: string, name: string, gap: string, params: string, parts: seq<Part>, pad: string, rest: string)
    | Initialiser(lead: string, body: string)
    | Block(lead: string, head: Head, gap: string, items: Items, pad: string)
    | Function(macros: seq<Macro>, lead: string, name: string, gap: string, params: string,
               parts: seq<Part>, pad: string, body: string)

  datatype Items = Nil | Cons(first: Item, rest: Items)

  // ---- Well-formedness ----

  predicate Blanks(s: string) {
    forall k :: 0 <= k < |s| ==> IsWs(s[k])
  }

  predicate QuietChar(c: char) {
    c != ';' && c != '{' && c != '}' && c != '('
  }

  /** Text in which nothing can look like a definition, a statement end or a block. */
  predicate Quiet(s: string) {
    forall k :: 0 <= k < |s| ==> QuietChar(s[k])
  }

  /** Quiet text after which an identifier can start. */
  predicate Lead(s: string) {
    Quiet(s) && (s != "" ==> !IsWord(s[|s| - 1]))
  }

  predicate Identifier(s: string) {
    s != "" && IsIdentStart(s[0]) && forall k :: 0 <= k < |s| ==> IsWord(s[k])
  }

  predicate Name(s: string) {
    Identifier(s) && !IsKeyword(s)
  }

  /** Reading `s` from `k` at nesting depth `depth` closes only what it opens. */
  predicate Balanced(s: string, k: nat, depth: nat, open: char, close: char)
    requires k <= |s|
    decreases |s| - k
  {
    if k == |s| then depth == 0
    else if s[k] == open then Balanced(s, k + 1, depth + 1, open, close)
    else if s[k] == close then depth > 0 && Balanced(s, k + 1, depth - 1, open, close)
    else Balanced(s, k + 1, depth, open, close)
  }

  predicate Parens(s: string) {
    Balanced(s, 0, 0, '(', ')')
  }

  predicate Braces(s: string) {
    Balanced(s, 0, 0, '{', '}')
  }

  /** A token that can be read inside an initialiser list or not. */
  predicate GoodToken(t: Token, inCtor: bool) {
    match t
    case Word(word) => Identifier(word)
    case Group(word, sep, inner) =>
      Identifier(word) && (inCtor || IsPostParenToken(word)) && Blanks(sep) && Parens(inner)
    case Arrow => true
    case Colon => true
    case Comma => inCtor
  }

  /** Parts that can follow, after a word or not, inside an initialiser list or not. */
  predicate GoodParts(parts: seq<Part>, afterWord: bool, inCtor: bool) {
    if parts == [] then true
    else
      var t := parts[0].token;
      && Blanks(parts[0].gap) && GoodToken(t, inCtor)
      && (afterWord && (t.Word? || t.Group?) ==> parts[0].gap != "")
      && GoodParts(parts[1..], t.Word?, inCtor || t.Colon?)
  }

  /** Text that a macro call can be followed by: it ends in white space or punctuation, and has no colon. */
  predicate AfterMacro(s: string) {
    Lead(s) && ':' !in s
  }

  predicate GoodMacros(macros: seq<Macro>, lead: string, name: string) {
    if macros == [] then Lead(lead)
    else
      var c := macros[0];
      var lead' := if |macros| == 1 then lead else macros[1].lead;
      var name' := if |macros| == 1 then name else macros[1].name;
      && Lead(c.lead) && Name(c.name) && Blanks(c.gap) && Parens(c.args)
      && AfterMacro(lead') && !IsPostParenToken(name')
      && GoodMacros(macros[1..], lead, name)
  }

  /** A name with or without qualification, `a::b`. */
  predicate Qualified(name: string) {
    name != "" && IsIdentStart(name[0]) && forall k :: 0 <= k < |name| ==> IsWord(name[k]) || name[k] == ':'
  }

  predicate GoodHead(h: Head) {
    match h
    case Namespace(_, name) => name == "" || Qualified(name)
    case Linkage(language) => Quiet(language) && '"' !in language
    case TypeHead(before, keyword, after) =>
      && Lead(before) && '=' !in before
      && keyword in TYPE_KEYWORDS
      && Quiet(after) && '=' !in after && (after != "" ==> !IsWord(after[0]))
  }

  predicate GoodItem(item: Item) {
    match item
    case Statement(text) => Quiet(text)
    case Prototype(lead, name, gap, params, parts, pad, rest) =>
      && Lead(lead) && Name(name) && Blanks(gap) && Parens(params)
      && GoodParts(parts, false, false) && Blanks(pad)
      && Quiet(rest) && (rest != "" ==> rest[0] == '=')
    case Initialiser(lead, body) => Quiet(lead) && '=' in lead && !IsLinkageHead(Strip(lead)) && Braces(body)
    case Block(lead, head, gap, items, pad) =>
      Blanks(lead) && GoodHead(head) && Blanks(gap) && Good(items) && Quiet(pad)
    case Function(macros, lead, name, gap, params, parts, pad, body) =>
      && GoodMacros(macros, lead, name) && Name(name) && Blanks(gap) && Parens(params)
      && GoodParts(parts, false, false) && Blanks(pad) && Braces(body)
  }

  predicate Good(items: Items) {
    match items
    case Nil => true
    case Cons(first, rest) => GoodItem(first) && Good(rest)
  }

  // ---- The printer ----

  function PrintToken(t: Token): string {
    match t
    case Word(word) => word
    case Group(word, sep, inner) => word + (sep + ("(" + (inner + ")")))
    case Arrow => "->"
    case Colon => ":"
    case Comma => ","
  }

  function PrintPart(part: Part): string {
    part.gap + PrintToken(part.token)
  }

  function PrintParts(parts: seq<Part>): string {
    if parts == [] then "" else PrintPart(parts[0]) + PrintParts(parts[1..])
  }

  /** `name (params)` with what follows it up to the body or the end of the declaration. */
  function PrintDeclarator(name: string, gap: string, params: string, parts: seq<Part>, pad: string): string {
    name + (gap + ("(" + (params + (")" + (PrintParts(parts) + pad)))))
  }

  function PrintMacro(c: Macro): string {
    c.lead + (c.name + (c.gap + ("(" + (c.args + ")"))))
  }

  function PrintMacros(macros: seq<Macro>): string {
    if macros == [] then "" else PrintMacro(macros[0]) + PrintMacros(macros[1..])
  }

  function PrintHead(h: Head): string {
    match h
    case Namespace(isInline, name) =>
      (if isInline then "inline " else "") + ("namespace" + (if name == "" then "" else " " + name))
    case Linkage(language) => "extern " + ("\"" + (language + "\""))
    case TypeHead(before, keyword, after) => before + (keyword + after)
  }

  function PrintItem(item: Item): string {
    match item
    case Statement(text) => text + ";"
    case Prototype(lead, name, gap, params, parts, pad, rest) =>
      lead + (PrintDeclarator(name, gap, params, parts, pad) + (rest + ";"))
    case Initialiser(lead, body) => lead + ("{" + (body + "}"))
    case Block(lead, head, gap, items, pad) =>
      (lead + (PrintHead(head) + gap)) + ("{" + (Print(items) + (pad + "}")))
    case Function(macros, lead, name, gap, params, parts, pad, body) =>
      (PrintMacros(macros) + lead) + (PrintDeclarator(name, gap, params, parts, pad) + ("{" + (body + "}")))
  }

  function Print(items: Items): string {
    match items
    case Nil => ""
    case Cons(first, rest) => PrintItem(first) + Print(rest)
  }

  /** The definitions of the unit, in order, the first line of the item being `line`. */
  function ItemSpans(item: Item, line: nat): seq<FunctionSpan> {
    match item
    case Block(lead, head, gap, items, _) =>
      Spans(items, line + Newlines(lead + (PrintHead(head) + gap)))
    case Function(_, _, name, _, _, _, _, _) =>
      var text := PrintItem(item);
      [FunctionSpan(name, line + Newlines(text[..SkipWs(text, 0)]), line + Newlines(text))]
    case _ => []
  }

  function Spans(items: Items, line: nat): seq<FunctionSpan> {
    match items
    case Nil => []
    case Cons(first, rest) => ItemSpans(first, line) + Spans(rest, line + Newlines(PrintItem(first)))
  }

  // ---- Reading printed text ----

  ghost predicate At(m: string, i: nat, s: string) {
    i + |s| <= |m| && m[i..i + |s|] == s
  }

  lemma AtConcat(m: string, i: nat, a: string, b: string)
    requires At(m, i, a + b)
    ensures At(m, i, a) && At(m, i + |a|, b)
    ensures i + |a| + |b| <= |m|
  {
    assert m[i..i + |a|] == (a + b)[..|a|];
    assert m[i + |a|..i + |a| + |b|] == (a + b)[|a|..];
  }

  lemma AtChar(m: string, i: nat, s: string, k: nat)
    requires At(m, i, s) && k < |s|
    ensures i + |s| <= |m| && m[i + k] == s[k]
  {
    assert m[i..i + |s|][k] == s[k];
  }

  lemma AtQuiet(m: string, i: nat, s: string)
    requires At(m, i, s) && Quiet(s)
    ensures forall k :: i <= k < i + |s| ==> QuietChar(m[k])
  {
    forall k | i <= k < i + |s| ensures QuietChar(m[k]) {
      AtChar(m, i, s, k - i);
    }
  }

  /** White space ends where something else begins. */
  lemma {:induction false} AtBlanks(m: string, i: nat, s: string)
    requires At(m, i, s) && Blanks(s)
    requires i + |s| < |m| ==> !IsWs(m[i + |s|])
    ensures SkipWs(m, i) == i + |s|
  {
    forall k | i <= k < i + |s| ensures IsWs(m[k]) {
      AtChar(m, i, s, k - i);
    }
  }

  lemma AtIdentifier(m: string, i: nat, s: string)
    requires At(m, i, s) && Identifier(s)
    requires i + |s| < |m| ==> !IsWord(m[i + |s|])
    ensures m[i..WordEnd(m, i)] == s && WordEnd(m, i) == i + |s|
    ensures IsIdentStart(m[i]) && !IsWs(m[i])
  {
    AtChar(m, i, s, 0);
    forall k | i <= k < i + |s| ensures IsWord(m[k]) {
      AtChar(m, i, s, k - i);
    }
  }

  lemma {:induction false} BalancedStep(m: string, i: nat, s: string, k: nat, depth: nat, open: char, close: char)
    requires At(m, i, s) && i + |s| < |m| && m[i + |s|] == close && open != close
    requires k <= |s| && Balanced(s, k, depth, open, close)
    ensures SkipBalanced(m, i + k, depth + 1, open, close) == i + |s| + 1
    decreases |s| - k
  {
    if k < |s| {
      AtChar(m, i, s, k);
      BalancedStep(m, i, s, k + 1,
                   if s[k] == open then depth + 1 else if s[k] == close then depth - 1 else depth,
                   open, close);
    }
  }

  lemma GroupFrom(m: string, i: nat, inner: string, open: char, close: char)
    requires open != close && Balanced(inner, 0, 0, open, close)
    requires i < |m| && m[i] == open && At(m, i + 1, inner)
    requires i + 1 + |inner| < |m| && m[i + 1 + |inner|] == close
    ensures SkipBalanced(m, i, 0, open, close) == i + |inner| + 2
  {
    BalancedStep(m, i + 1, inner, 0, 0, open, close);
  }

  /** A bracketed group is skipped whole. */
  lemma {:induction false} AtGroup(m: string, i: nat, inner: string, open: char, close: char)
    requires open != close && Balanced(inner, 0, 0, open, close)
    requires At(m, i, [open] + (inner + [close]))
    ensures m[i] == open && SkipBalanced(m, i, 0, open, close) == i + |inner| + 2
  {
    AtConcat(m, i, [open], inner + [close]);
    AtConcat(m, i + 1, inner, [close]);
    AtChar(m, i, [open], 0);
    AtChar(m, i + 1 + |inner|, [close], 0);
    GroupFrom(m, i, inner, open, close);
  }

  /** Scanning passes over quiet text, from any position in it. */
  lemma {:induction false} QuietScan(m: string, k: nat, e: nat, seg: nat)
    requires seg <= k <= e <= |m|
    requires forall x :: k <= x < e ==> QuietChar(m[x])
    requires e < |m| ==> !IsWs(m[e]) && m[e] != '('
    requires k < e < |m| ==> !(IsWord(m[e - 1]) && IsWord(m[e]))
    ensures Scan(m, k, seg) == Scan(m, e, seg)
    decreases e - k
  {
    hide OpensScannedBlock;
    hide IsKeyword;
    hide Tail;
    if k < e {
      assert QuietChar(m[k]);
      var v := Advance(m, k, seg);
      assert v.found == [] && v.seg == seg && v.i <= e by {
        if IsIdentStart(m[k]) {
          var end := WordEnd(m, k);
          assert end <= e;
          var after := SkipWs(m, end);
          assert after < e ==> QuietChar(m[after]);
        }
      }
      QuietScan(m, v.i, e, seg);
    }
  }
}

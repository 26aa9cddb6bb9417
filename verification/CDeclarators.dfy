/**
Reading a printed declarator: a name, its parameter list and what follows up to the body or the end
of the declaration. Everything between the parameter list and the body is read through, and macro
calls in front of the name are tried as definitions, rejected and passed over.
*/
module CDeclarators {
  import opened Masking
  import opened CParser
  import opened CGrammar

  // ---- Parts behind the parameter list ----

  /** The character that ends the parts decides the candidate. */
  predicate EndsTail(m: string, e: nat) {
    e < |m| && (m[e] == '{' || m[e] == ';' || m[e] == '=')
  }

  function Ending(m: string, e: nat): Verdict
    requires e < |m|
  {
    if m[e] == '{' then Accepted(e) else Rejected(e)
  }

  lemma {:induction false} SplitParts(m: string, j: nat, parts: seq<Part>, pad: string)
    requires parts != [] && At(m, j, PrintParts(parts) + pad)
    ensures j + |PrintParts(parts) + pad| <= |m|
    ensures At(m, j, parts[0].gap)
    ensures At(m, j + |parts[0].gap|, PrintToken(parts[0].token))
    ensures At(m, j + |PrintPart(parts[0])|, PrintParts(parts[1..]) + pad)
    ensures |PrintPart(parts[0])| + |PrintParts(parts[1..]) + pad| == |PrintParts(parts) + pad|
  {
    hide At;
    hide PrintToken;
    var a, b := PrintPart(parts[0]), PrintParts(parts[1..]);
    assert (a + b) + pad == a + (b + pad);
    AtConcat(m, j, a, b + pad);
    AtConcat(m, j, parts[0].gap, PrintToken(parts[0].token));
  }

  lemma TokenStart(t: Token, inCtor: bool)
    requires GoodToken(t, inCtor)
    ensures PrintToken(t) != "" && !IsWs(PrintToken(t)[0]) && PrintToken(t)[0] != '('
    ensures !t.Word? && !t.Group? ==> !IsWord(PrintToken(t)[0])
  {
  }

  /** Printed parts and padding start with nothing that could extend a word, nor with a
      parenthesis. */
  lemma {:induction false} PartsStart(m: string, j: nat, parts: seq<Part>, pad: string, afterWord: bool, inCtor: bool)
    requires GoodParts(parts, afterWord, inCtor) && Blanks(pad)
    requires At(m, j, PrintParts(parts) + pad) && EndsTail(m, j + |PrintParts(parts) + pad|)
    ensures j < |m|
    ensures afterWord ==> !IsWord(m[j])
    ensures SkipWs(m, j) < |m| && m[SkipWs(m, j)] != '('
  {
    hide PrintParts;
    hide PrintToken;
    var blanks := if parts == [] then pad else parts[0].gap;
    if parts == [] {
      PrintNoParts();
      assert "" + pad == pad;
    } else {
      SplitParts(m, j, parts, pad);
      TokenStart(parts[0].token, inCtor);
      AtChar(m, j + |blanks|, PrintToken(parts[0].token), 0);
    }
    AtBlanks(m, j, blanks);
    if blanks != "" {
      AtChar(m, j, blanks, 0);
    }
  }

  lemma PrintNoParts()
    ensures PrintParts([]) == ""
  {
  }

  lemma StepGroup(m: string, p: nat, word: string, sep: string, inner: string, inCtor: bool)
    requires At(m, p, PrintToken(Group(word, sep, inner))) && GoodToken(Group(word, sep, inner), inCtor)
    ensures StepTail(m, p, inCtor) == Onward(p + |PrintToken(Group(word, sep, inner))|, inCtor)
    ensures !IsWs(m[p])
  {
    hide IsPostParenToken;
    hide At;
    hide SkipBalanced;
    hide Balanced;
    hide SkipWs;
    hide WordEnd;
    GroupParts(m, p, word, sep, inner);
    hide GoodToken;
    hide PrintToken;
    assert StepTail(m, p, inCtor) == Onward(p + |word| + |sep| + |inner| + 2, inCtor);
  }

  lemma GroupParts(m: string, p: nat, word: string, sep: string, inner: string)
    requires At(m, p, PrintToken(Group(word, sep, inner))) && Identifier(word) && Blanks(sep) && Parens(inner)
    ensures |PrintToken(Group(word, sep, inner))| == |word| + |sep| + |inner| + 2
    ensures p < |m| && IsIdentStart(m[p]) && !IsWs(m[p])
    ensures WordEnd(m, p) == p + |word| && m[p..WordEnd(m, p)] == word
    ensures SkipWs(m, p + |word|) == p + |word| + |sep| < |m| && m[p + |word| + |sep|] == '('
    ensures SkipBalanced(m, p + |word| + |sep|, 0, '(', ')') == p + |word| + |sep| + |inner| + 2
  {
    hide At;
    hide SkipBalanced;
    hide Balanced;
    hide SkipWs;
    hide WordEnd;
    var group := "(" + (inner + ")");
    AtConcat(m, p, word, sep + group);
    AtConcat(m, p + |word|, sep, group);
    AtGroup(m, p + |word| + |sep|, inner, '(', ')');
    AtBlanks(m, p + |word|, sep);
    if sep != "" {
      AtChar(m, p + |word|, sep, 0);
    }
    AtIdentifier(m, p, word);
  }

  /** One printed token is one step of the tail loop. */
  lemma {:induction false} StepToken(m: string, p: nat, t: Token, inCtor: bool)
    requires At(m, p, PrintToken(t)) && GoodToken(t, inCtor)
    requires t.Word? ==>
               var end := p + |PrintToken(t)|;
               end < |m| && !IsWord(m[end]) && SkipWs(m, end) < |m| && m[SkipWs(m, end)] != '('
    ensures p < |m| && !IsWs(m[p])
    ensures StepTail(m, p, inCtor) == Onward(p + |PrintToken(t)|, inCtor || t.Colon?)
  {
    hide IsPostParenToken;
    match t
    case Word(word) => AtIdentifier(m, p, word);
    case Group(word, sep, inner) => StepGroup(m, p, word, sep, inner, inCtor);
    case Arrow =>
      AtChar(m, p, "->", 0);
      AtChar(m, p, "->", 1);
    case Colon => AtChar(m, p, ":", 0);
    case Comma => AtChar(m, p, ",", 0);
  }

  /** The tail loop reads the printed parts to their end. */
  lemma {:induction false} TailReadsParts(m: string, j: nat, parts: seq<Part>, pad: string, afterWord: bool,
      inCtor: bool)
    requires GoodParts(parts, afterWord, inCtor) && Blanks(pad)
    requires At(m, j, PrintParts(parts) + pad) && EndsTail(m, j + |PrintParts(parts) + pad|)
    ensures Tail(m, j, inCtor) == Ending(m, j + |PrintParts(parts) + pad|)
    decreases |parts|
  {
    hide IsPostParenToken;
    hide PrintParts;
    hide PrintToken;
    hide StepTail;
    hide At;
    hide SkipWs;
    hide GoodToken;
    if parts == [] {
      PrintNoParts();
      assert "" + pad == pad;
      AtBlanks(m, j, pad);
      TailEnds(m, j + |pad|, inCtor);
    } else {
      var t := parts[0].token;
      SplitParts(m, j, parts, pad);
      var p := j + |parts[0].gap|;
      var j' := p + |PrintToken(t)|;
      PartsStart(m, j', parts[1..], pad, t.Word?, inCtor || t.Colon?);
      StepToken(m, p, t, inCtor);
      AtBlanks(m, j, parts[0].gap);
      TailReadsParts(m, j', parts[1..], pad, t.Word?, inCtor || t.Colon?);
    }
  }

  lemma TailEnds(m: string, e: nat, inCtor: bool)
    requires EndsTail(m, e)
    ensures StepTail(m, e, inCtor) == Decided(Ending(m, e))
  {
  }

  /** A macro call is not taken for a definition: the next name ends its tail, if nothing in front of it
      does; words and white space do not. */
  lemma {:induction false} TailRejectsMacro(m: string, j: nat, e: nat)
    requires j <= e < |m| && IsIdentStart(m[e])
    requires forall x :: j <= x < e ==> QuietChar(m[x]) && m[x] != ':'
    requires j < e ==> !IsWord(m[e - 1])
    requires var end := WordEnd(m, e);
             SkipWs(m, end) < |m| && m[SkipWs(m, end)] == '(' && !IsPostParenToken(m[e..end])
    ensures Tail(m, j, false).Rejected? && j <= Tail(m, j, false).at <= e
    ensures (forall x :: j <= x < e ==> IsIdentStart(m[x]) || IsWs(m[x])) ==> Tail(m, j, false).at == e
    decreases e - j
  {
    hide IsPostParenToken;
    hide SkipWs;
    hide WordEnd;
    hide Tail;
    var p := SkipWs(m, j);
    assert p <= e;
    TailUnfolds(m, j, false);
    if p < e {
      assert QuietChar(m[p]);
      if IsIdentStart(m[p]) {
        var end := WordEnd(m, p);
        assert end <= e;
        var after := SkipWs(m, end);
        assert after <= e && (after < e ==> QuietChar(m[after]));
        assert StepTail(m, p, false) == Onward(end, false);
        TailRejectsMacro(m, end, e);
      } else if m[p] == '-' && m[p + 1] == '>' {
        TailRejectsMacro(m, p + 2, e);
      }
    }
  }

  lemma {:induction false} TailUnfolds(m: string, j: nat, inCtor: bool)
    requires j <= |m| && SkipWs(m, j) < |m|
    ensures Tail(m, j, inCtor) ==
            match StepTail(m, SkipWs(m, j), inCtor)
            case Decided(v) => v
            case Onward(k, c) => Tail(m, k, c)
  {
    hide StepTail;
    hide SkipWs;
  }

  // ---- Names with their parameter lists ----

  /** An identifier stands at `e`, with a parenthesis behind it. */
  ghost predicate CallAt(m: string, e: nat, name: string) {
    && At(m, e, name) && Identifier(name)
    && e + |name| < |m| && !IsWord(m[e + |name|])
    && SkipWs(m, e + |name|) < |m| && m[SkipWs(m, e + |name|)] == '('
  }

  lemma {:induction false} CallAtName(m: string, e: nat, name: string, gap: string, args: string)
    requires At(m, e, name + (gap + ("(" + (args + ")"))))
    requires Identifier(name) && Blanks(gap) && Parens(args)
    ensures CallAt(m, e, name)
    ensures IsIdentStart(m[e]) && WordEnd(m, e) == e + |name| && m[e..e + |name|] == name
    ensures SkipBalanced(m, SkipWs(m, e + |name|), 0, '(', ')') == e + |name| + |gap| + |args| + 2
    ensures e + |name| + |gap| + |args| + 2 <= |m|
  {
    hide SkipBalanced;
    hide Balanced;
    hide At;
    hide SkipWs;
    hide WordEnd;
    var group := "(" + (args + ")");
    AtConcat(m, e, name, gap + group);
    AtConcat(m, e + |name|, gap, group);
    AtGroup(m, e + |name| + |gap|, args, '(', ')');
    AtBlanks(m, e + |name|, gap);
    if gap != "" {
      AtChar(m, e + |name|, gap, 0);
    }
    AtIdentifier(m, e, name);
  }

  lemma {:induction false} CallAtReads(m: string, e: nat, name: string)
    requires CallAt(m, e, name)
    ensures IsIdentStart(m[e]) && !IsWs(m[e]) && m[e] != '('
    ensures WordEnd(m, e) == e + |name| && m[e..e + |name|] == name
  {
    AtIdentifier(m, e, name);
  }

  /** Quiet text in front of a name is scanned up to the name. */
  lemma QuietUpToName(m: string, i: nat, lead: string, k: nat, name: string, seg: nat)
    requires At(m, i, lead) && Lead(lead) && CallAt(m, i + |lead|, name)
    requires seg <= i <= k <= i + |lead|
    ensures Scan(m, k, seg) == Scan(m, i + |lead|, seg)
  {
    hide Scan;
    CallAtReads(m, i + |lead|, name);
    AtQuiet(m, i, lead);
    if lead != "" {
      AtChar(m, i, lead, |lead| - 1);
    }
    QuietScan(m, k, i + |lead|, seg);
  }

  /** Behind a macro call, the tail loop gives up somewhere before the next name, and scanning
      resumes as if it had given up at once. */
  lemma {:induction false} TailAfterMacro(m: string, close: nat, seg: nat, lead: string, name: string)
    requires AfterMacro(lead) && !IsPostParenToken(name)
    requires seg <= close && At(m, close, lead) && CallAt(m, close + |lead|, name)
    ensures Tail(m, close, false).Rejected?
    ensures Scan(m, Tail(m, close, false).at, seg) == Scan(m, close, seg)
  {
    hide IsPostParenToken;
    hide Scan;
    hide Tail;
    var e := close + |lead|;
    CallAtReads(m, e, name);
    AtQuiet(m, close, lead);
    forall x | close <= x < e ensures m[x] != ':' {
      AtChar(m, close, lead, x - close);
    }
    if lead != "" {
      AtChar(m, close, lead, |lead| - 1);
    }
    TailRejectsMacro(m, close, e);
    QuietUpToName(m, close, lead, Tail(m, close, false).at, name, seg);
    QuietUpToName(m, close, lead, close, name, seg);
  }

  lemma AtMacro(m: string, i: nat, c: Macro)
    requires At(m, i, PrintMacro(c))
    ensures At(m, i, c.lead)
    ensures At(m, i + |c.lead|, c.name + (c.gap + ("(" + (c.args + ")"))))
    ensures |PrintMacro(c)| == |c.lead| + |c.name| + |c.gap| + |c.args| + 2
  {
    AtConcat(m, i, c.lead, c.name + (c.gap + ("(" + (c.args + ")"))));
  }

  /** A call whose tail is rejected moves the main loop to where the tail stopped. */
  lemma AdvanceCall(m: string, n: nat, seg: nat, name: string, gap: string, args: string)
    requires At(m, n, name + (gap + ("(" + (args + ")"))))
    requires Name(name) && Blanks(gap) && Parens(args) && seg <= n
    requires n + |name| + |gap| + |args| + 2 <= |m|
    requires Tail(m, n + |name| + |gap| + |args| + 2, false).Rejected?
    ensures CallAt(m, n, name)
    ensures n + |name| < |m|
    ensures Scan(m, n, seg) == Scan(m, Tail(m, n + |name| + |gap| + |args| + 2, false).at, seg)
  {
    hide IsKeyword;
    hide Tail;
    hide At;
    hide SkipWs;
    hide WordEnd;
    hide SkipBalanced;
    hide Balanced;
    CallAtName(m, n, name, gap, args);
    var v := Advance(m, n, seg);
    assert v == Move([], Tail(m, n + |name| + |gap| + |args| + 2, false).at, seg);
    assert [] + Scan(m, v.i, v.seg) == Scan(m, v.i, v.seg);
  }

  /** A macro call in front of a name is passed over, however the name's own lead looks. */
  lemma ScanMacro(m: string, i: nat, seg: nat, c: Macro, lead: string, name: string)
    requires Lead(c.lead) && Name(c.name) && Blanks(c.gap) && Parens(c.args)
    requires AfterMacro(lead) && !IsPostParenToken(name)
    requires seg <= i && At(m, i, PrintMacro(c)) && At(m, i + |PrintMacro(c)|, lead)
    requires CallAt(m, i + |PrintMacro(c)| + |lead|, name)
    ensures Scan(m, i, seg) == Scan(m, i + |PrintMacro(c)|, seg)
  {
    hide IsPostParenToken;
    hide IsKeyword;
    hide Tail;
    hide Scan;
    hide Lead;
    hide PrintMacro;
    hide Balanced;
    AtMacro(m, i, c);
    TailAfterMacro(m, i + |PrintMacro(c)|, seg, lead, name);
    AdvanceCall(m, i + |c.lead|, seg, c.name, c.gap, c.args);
    QuietUpToName(m, i, c.lead, i, c.name, seg);
  }

  lemma {:induction false} MacroCalls(m: string, i: nat, c: Macro)
    requires Name(c.name) && Blanks(c.gap) && Parens(c.args) && At(m, i, PrintMacro(c))
    ensures At(m, i, c.lead) && CallAt(m, i + |c.lead|, c.name)
  {
    hide At;
    hide CallAt;
    hide Balanced;
    hide IsKeyword;
    AtConcat(m, i, c.lead, c.name + (c.gap + ("(" + (c.args + ")"))));
    CallAtName(m, i + |c.lead|, c.name, c.gap, c.args);
  }

  lemma {:induction false} FirstMacro(macros: seq<Macro>, lead: string, name: string)
    requires GoodMacros(macros, lead, name) && macros != []
    ensures var c := macros[0];
            Name(c.name) && Blanks(c.gap) && Parens(c.args)
    ensures PrintMacros(macros) == PrintMacro(macros[0]) + PrintMacros(macros[1..])
  {
    hide Name;
    hide Balanced;
  }

  lemma PrintNoMacros()
    ensures PrintMacros([]) == ""
  {
  }

  /** What the first of the remaining macro calls, or else the name itself, looks like. */
  lemma {:induction false} NextCall(m: string, i: nat, macros: seq<Macro>, lead: string, name: string)
    requires GoodMacros(macros, lead, name)
    requires At(m, i, PrintMacros(macros) + lead)
    requires CallAt(m, i + |PrintMacros(macros) + lead|, name)
    ensures var lead' := if macros == [] then lead else macros[0].lead;
            var name' := if macros == [] then name else macros[0].name;
            At(m, i, lead') && CallAt(m, i + |lead'|, name')
  {
    hide *;
    if macros == [] {
      PrintNoMacros();
      assert "" + lead == lead;
    } else {
      FirstMacro(macros, lead, name);
      AtConcat(m, i, PrintMacros(macros), lead);
      AtConcat(m, i, PrintMacro(macros[0]), PrintMacros(macros[1..]));
      MacroCalls(m, i, macros[0]);
    }
  }

  lemma {:induction false} ScanMacros(m: string, i: nat, seg: nat, macros: seq<Macro>, lead: string, name: string)
    requires GoodMacros(macros, lead, name)
    requires seg <= i && At(m, i, PrintMacros(macros) + lead)
    requires CallAt(m, i + |PrintMacros(macros) + lead|, name)
    ensures Scan(m, i, seg) == Scan(m, i + |PrintMacros(macros) + lead|, seg)
    decreases |macros|
  {
    hide Scan;
    hide CallAt;
    hide At;
    hide IsPostParenToken;
    hide IsKeyword;
    hide Balanced;
    if macros == [] {
      assert PrintMacros(macros) + lead == lead;
      QuietUpToName(m, i, lead, i, name, seg);
    } else {
      var c, rest := macros[0], PrintMacros(macros[1..]);
      assert (PrintMacro(c) + rest) + lead == PrintMacro(c) + (rest + lead);
      AtConcat(m, i, PrintMacro(c), rest + lead);
      var i' := i + |PrintMacro(c)|;
      NextCall(m, i', macros[1..], lead, name);
      ScanMacro(m, i, seg, c,
                if |macros| == 1 then lead else macros[1].lead,
                if |macros| == 1 then name else macros[1].name);
      ScanMacros(m, i', seg, macros[1..], lead, name);
    }
  }

  /** Behind the parameter list, the tail loop reads on to the end of the declarator. */
  lemma {:induction false} DeclaratorTail(m: string, i: nat, name: string, gap: string, params: string,
      parts: seq<Part>, pad: string)
    requires Identifier(name) && Blanks(gap) && Parens(params) && GoodParts(parts, false, false) && Blanks(pad)
    requires At(m, i, PrintDeclarator(name, gap, params, parts, pad))
    requires EndsTail(m, i + |PrintDeclarator(name, gap, params, parts, pad)|)
    ensures CallAt(m, i, name)
    ensures i + |name| <= |m| && IsIdentStart(m[i]) && WordEnd(m, i) == i + |name| && m[i..i + |name|] == name
    ensures var close := SkipBalanced(m, SkipWs(m, i + |name|), 0, '(', ')');
            close <= |m| && Tail(m, close, false) == Ending(m, i + |PrintDeclarator(name, gap, params, parts, pad)|)
  {
    hide At;
    hide SkipBalanced;
    hide Tail;
    hide Ending;
    hide EndsTail;
    hide PrintParts;
    hide GoodParts;
    hide Balanced;
    hide SkipWs;
    hide WordEnd;
    var call := name + (gap + ("(" + (params + ")")));
    var behind := PrintParts(parts) + pad;
    assert PrintDeclarator(name, gap, params, parts, pad) == call + behind;
    AtConcat(m, i, call, behind);
    CallAtName(m, i, name, gap, params);
    TailReadsParts(m, i + |call|, parts, pad, false, false);
  }

  /** What the main loop makes of a name with parentheses behind it, whose tail ends at `e`. */
  lemma {:induction false} AdvanceName(m: string, i: nat, seg: nat, name: string, e: nat)
    requires seg <= i && CallAt(m, i, name) && !IsKeyword(name) && EndsTail(m, e)
    requires i < |m| && IsIdentStart(m[i]) && WordEnd(m, i) == i + |name| && m[i..i + |name|] == name
    requires var close := SkipBalanced(m, SkipWs(m, i + |name|), 0, '(', ')');
             close <= |m| && Tail(m, close, false) == Ending(m, e)
    ensures Advance(m, i, seg) ==
            if m[e] == '{' then
              var stop := SkipBalanced(m, e, 0, '{', '}');
              Move([Extent(name, SignatureStart(m, seg, i), stop)], stop, stop)
            else Move([], e, seg)
  {
    hide IsKeyword;
    hide Tail;
    hide At;
    hide SkipWs;
    hide WordEnd;
    hide SkipBalanced;
    hide SignatureStart;
  }

  lemma IsName(name: string)
    requires Name(name)
    ensures Identifier(name) && name != "" && !IsKeyword(name)
  {
  }

  /** A name with its parameters is reported if a body follows, and passed over otherwise. */
  lemma {:induction false} AdvanceDeclarator(m: string, i: nat, seg: nat, name: string, gap: string, params: string,
      parts: seq<Part>, pad: string)
    requires Name(name) && Blanks(gap) && Parens(params) && GoodParts(parts, false, false) && Blanks(pad)
    requires seg <= i && At(m, i, PrintDeclarator(name, gap, params, parts, pad))
    requires EndsTail(m, i + |PrintDeclarator(name, gap, params, parts, pad)|)
    ensures i < |m| && CallAt(m, i, name)
    ensures var e := i + |PrintDeclarator(name, gap, params, parts, pad)|;
            Advance(m, i, seg) ==
            if m[e] == '{' then
              var stop := SkipBalanced(m, e, 0, '{', '}');
              Move([Extent(name, SignatureStart(m, seg, i), stop)], stop, stop)
            else Move([], e, seg)
  {
    IsName(name);
    hide *;
    DeclaratorTail(m, i, name, gap, params, parts, pad);
    AdvanceName(m, i, seg, name, i + |PrintDeclarator(name, gap, params, parts, pad)|);
  }
}

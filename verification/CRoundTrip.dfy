/** The extractor applied to printed translation units. */
module CRoundTrip {
  import opened Masking
  import opened CParser
  import opened CGrammar
  import opened CDeclarators
  import opened CHeads

  /** The definitions of an item printed at `i`, as characters. */
  ghost function ItemExtents(item: Item, i: nat): seq<Extent> {
    match item
    case Block(lead, head, gap, items, _) => Extents(items, i + |lead + (PrintHead(head) + gap)| + 1)
    case Function(_, _, name, _, _, _, _, _) =>
      [Extent(name, i + SkipWs(PrintItem(item), 0), i + |PrintItem(item)|)]
    case _ => []
  }

  ghost function Extents(items: Items, i: nat): seq<Extent> {
    match items
    case Nil => []
    case Cons(first, rest) => ItemExtents(first, i) + Extents(rest, i + |PrintItem(first)|)
  }

  /** Quiet text is scanned up to the delimiter behind it. */
  lemma QuietUpToDelimiter(m: string, i: nat, s: string, seg: nat)
    requires At(m, i, s) && Quiet(s) && seg <= i
    requires i + |s| < |m| ==> !QuietChar(m[i + |s|]) && m[i + |s|] != '('
    ensures Scan(m, i, seg) == Scan(m, i + |s|, seg)
  {
    hide Scan;
    AtQuiet(m, i, s);
    QuietScan(m, i, i + |s|, seg);
  }

  /** A semicolon or a closing brace ends the segment. */
  lemma ScanDelimiter(m: string, i: nat, seg: nat)
    requires seg <= i < |m| && (m[i] == ';' || m[i] == '}')
    ensures Scan(m, i, seg) == Scan(m, i + 1, i + 1)
  {
    assert [] + Scan(m, i + 1, i + 1) == Scan(m, i + 1, i + 1);
  }

  lemma ScanStatement(m: string, i: nat, text: string)
    requires Quiet(text) && At(m, i, PrintItem(Statement(text)))
    ensures i + |text| + 1 <= |m|
    ensures Scan(m, i, i) == Scan(m, i + |text| + 1, i + |text| + 1)
  {
    hide Scan;
    hide At;
    AtConcat(m, i, text, ";");
    AtChar(m, i + |text|, ";", 0);
    QuietUpToDelimiter(m, i, text, i);
    ScanDelimiter(m, i + |text|, i);
  }

  lemma ScanPrototype(m: string, i: nat, item: Item)
    requires item.Prototype? && GoodItem(item) && At(m, i, PrintItem(item))
    ensures i + |PrintItem(item)| <= |m|
    ensures Scan(m, i, i) == Scan(m, i + |PrintItem(item)|, i + |PrintItem(item)|)
  {
    hide Scan;
    hide At;
    hide Advance;
    hide GoodParts;
    hide IsKeyword;
    hide Balanced;
    hide CallAt;
    hide PrintDeclarator;
    var Prototype(lead, name, gap, params, parts, pad, rest) := item;
    var decl := PrintDeclarator(name, gap, params, parts, pad);
    var n := i + |lead|;
    var e := n + |decl|;
    AtConcat(m, i, lead, decl + (rest + ";"));
    AtConcat(m, n, decl, rest + ";");
    AtConcat(m, e, rest, ";");
    AtChar(m, e + |rest|, ";", 0);
    if rest != "" {
      AtChar(m, e, rest, 0);
    }
    AdvanceDeclarator(m, n, i, name, gap, params, parts, pad);
    QuietUpToName(m, i, lead, i, name, i);
    ScanMove(m, n, i);
    QuietUpToDelimiter(m, e, rest, i);
    ScanDelimiter(m, e + |rest|, i);
  }

  /** One step of the main loop. */
  lemma {:induction false} ScanMove(m: string, i: nat, seg: nat)
    requires seg <= i < |m|
    ensures Advance(m, i, seg).found == [] ==>
              Scan(m, i, seg) == Scan(m, Advance(m, i, seg).i, Advance(m, i, seg).seg)
    ensures Scan(m, i, seg) == Advance(m, i, seg).found + Scan(m, Advance(m, i, seg).i, Advance(m, i, seg).seg)
  {
    hide Advance;
    var v := Advance(m, i, seg);
    assert [] + Scan(m, v.i, v.seg) == Scan(m, v.i, v.seg);
  }

  lemma ScanInitialiser(m: string, i: nat, lead: string, body: string)
    requires GoodItem(Initialiser(lead, body)) && At(m, i, PrintItem(Initialiser(lead, body)))
    ensures i + |PrintItem(Initialiser(lead, body))| <= |m|
    ensures var stop := i + |PrintItem(Initialiser(lead, body))|;
            Scan(m, i, i) == Scan(m, stop, stop)
  {
    hide Scan;
    hide Balanced;
    hide OpensScannedBlock;
    var e := i + |lead|;
    AtConcat(m, i, lead, "{" + (body + "}"));
    AtGroup(m, e, body, '{', '}');
    QuietUpToDelimiter(m, i, lead, i);
    InitialiserIsSkipped(lead);
    assert m[i..e] == lead;
    ScanMove(m, e, i);
  }

  /** Leading white space of a printed text is that of the segment it starts. */
  lemma {:induction false} SignatureOf(m: string, i: nat, text: string, n: nat)
    requires At(m, i, text) && i <= n < i + |text| && !IsWs(m[n])
    ensures SignatureStart(m, i, n) == i + SkipWs(text, 0)
  {
    var p := SkipWs(text, 0);
    AtChar(m, i, text, n - i);
    assert p <= n - i;
    AtChar(m, i, text, p);
    forall k | i <= k < i + p ensures IsWs(m[k]) {
      AtChar(m, i, text, k - i);
    }
  }

  lemma ScanFunction(m: string, i: nat, item: Item)
    requires item.Function? && GoodItem(item) && At(m, i, PrintItem(item))
    ensures i + |PrintItem(item)| <= |m|
    ensures Scan(m, i, i) == ItemExtents(item, i) + Scan(m, i + |PrintItem(item)|, i + |PrintItem(item)|)
  {
    hide Scan;
    hide At;
    hide Advance;
    hide GoodParts;
    hide GoodMacros;
    hide IsKeyword;
    hide Balanced;
    hide SkipBalanced;
    hide SkipWs;
    hide CallAt;
    hide PrintDeclarator;
    hide PrintMacros;
    hide SignatureStart;
    var Function(macros, lead, name, gap, params, parts, pad, body) := item;
    var front := PrintMacros(macros) + lead;
    var decl := PrintDeclarator(name, gap, params, parts, pad);
    var n := i + |front|;
    var e := n + |decl|;
    AtConcat(m, i, front, decl + ("{" + (body + "}")));
    AtConcat(m, n, decl, "{" + (body + "}"));
    AtGroup(m, e, body, '{', '}');
    AdvanceDeclarator(m, n, i, name, gap, params, parts, pad);
    CallAtReads(m, n, name);
    ScanMacros(m, i, i, macros, lead, name);
    ScanMove(m, n, i);
    SignatureOf(m, i, PrintItem(item), n);
  }

  lemma {:induction false} ScanItem(m: string, i: nat, item: Item)
    requires GoodItem(item) && At(m, i, PrintItem(item))
    ensures i + |PrintItem(item)| <= |m|
    ensures Scan(m, i, i) == ItemExtents(item, i) + Scan(m, i + |PrintItem(item)|, i + |PrintItem(item)|)
    decreases item
  {
    hide Scan;
    hide At;
    hide Print;
    hide PrintHead;
    hide GoodHead;
    match item
    case Statement(text) => ScanStatement(m, i, text);
    case Prototype(_, _, _, _, _, _, _) => ScanPrototype(m, i, item);
    case Initialiser(lead, body) => ScanInitialiser(m, i, lead, body);
    case Function(_, _, _, _, _, _, _, _) => ScanFunction(m, i, item);
    case Block(lead, head, gap, items, pad) =>
      var front := lead + (PrintHead(head) + gap);
      var b := i + |front|;
      EnterBlock(m, i, lead, head, gap, Print(items) + (pad + "}"));
      LeaveBlock(m, b + 1, items, pad);
      ScanItems(m, b + 1, items);
  }

  /** The brace behind a printed head is passed over. */
  lemma EnterBlock(m: string, i: nat, lead: string, head: Head, gap: string, inside: string)
    requires Blanks(lead) && GoodHead(head) && Blanks(gap)
    requires At(m, i, (lead + (PrintHead(head) + gap)) + ("{" + inside))
    ensures var b := i + |lead + (PrintHead(head) + gap)|;
            b < |m| && At(m, b + 1, inside) && Scan(m, i, i) == Scan(m, b + 1, b + 1)
  {
    hide Scan;
    hide OpensScannedBlock;
    hide GoodHead;
    hide PrintHead;
    var front := lead + (PrintHead(head) + gap);
    var b := i + |front|;
    AtConcat(m, i, front, "{" + inside);
    AtConcat(m, b, "{", inside);
    AtChar(m, b, "{", 0);
    HeadOpens(lead, head, gap);
    QuietUpToDelimiter(m, i, front, i);
    assert m[i..b] == front;
    ScanMove(m, b, i);
  }

  lemma {:induction false} LeaveBlock(m: string, i: nat, items: Items, pad: string)
    requires Quiet(pad) && At(m, i, Print(items) + (pad + "}"))
    ensures At(m, i, Print(items))
    ensures var q := i + |Print(items)|;
            q + |pad| + 1 <= |m| && Scan(m, q, q) == Scan(m, q + |pad| + 1, q + |pad| + 1)
  {
    hide Scan;
    hide At;
    hide Print;
    hide Quiet;
    hide Advance;
    var q := i + |Print(items)|;
    AtConcat(m, i, Print(items), pad + "}");
    AtConcat(m, q, pad, "}");
    AtChar(m, q + |pad|, "}", 0);
    QuietUpToDelimiter(m, q, pad, q);
    ScanDelimiter(m, q + |pad|, q);
  }

  lemma {:induction false} ScanItems(m: string, i: nat, items: Items)
    requires Good(items) && At(m, i, Print(items))
    ensures i + |Print(items)| <= |m|
    ensures Scan(m, i, i) == Extents(items, i) + Scan(m, i + |Print(items)|, i + |Print(items)|)
    decreases items
  {
    hide Scan;
    hide PrintItem;
    hide ItemExtents;
    hide GoodItem;
    match items
    case Nil =>
    case Cons(first, rest) =>
      AtConcat(m, i, PrintItem(first), Print(rest));
      ScanItem(m, i, first);
      ScanItems(m, i + |PrintItem(first)|, rest);
  }

  // ---- From characters to lines ----

  lemma {:induction false} NewlinesConcat(a: string, b: string)
    ensures Newlines(a + b) == Newlines(a) + Newlines(b)
    decreases |b|
  {
    if b == "" {
      assert a + b == a;
    } else {
      var b' := b[..|b| - 1];
      NewlinesConcat(a, b');
      assert (a + b)[..|a + b| - 1] == a + b';
    }
  }

  lemma LineWithin(m: string, i: nat, s: string, k: nat)
    requires At(m, i, s) && k <= |s|
    ensures i + |s| <= |m| && LineAt(m, i + k) == LineAt(m, i) + Newlines(s[..k])
  {
    assert m[i..i + |s|][..k] == s[..k];
    assert m[..i + k] == m[..i] + s[..k];
    NewlinesConcat(m[..i], s[..k]);
  }

  lemma {:induction false} LineAfter(m: string, i: nat, s: string)
    requires At(m, i, s)
    ensures i + |s| <= |m| && LineAt(m, i + |s|) == LineAt(m, i) + Newlines(s)
  {
    LineWithin(m, i, s, |s|);
    assert s[..|s|] == s;
  }

  /** The extents are proper and have the given names and lines. */
  ghost predicate Renders(m: string, extents: seq<Extent>, spans: seq<FunctionSpan>) {
    && |extents| == |spans|
    && forall k :: 0 <= k < |extents| ==>
         && extents[k].start < extents[k].stop <= |m|
         && ToSpan(m, extents[k]) == spans[k]
  }

  lemma {:induction false} RenderFunction(m: string, i: nat, item: Item)
    requires item.Function? && At(m, i, PrintItem(item))
    ensures Renders(m, ItemExtents(item, i), ItemSpans(item, LineAt(m, i)))
  {
    hide At;
    hide PrintDeclarator;
    hide PrintMacros;
    var text := PrintItem(item);
    assert text[|text| - 1] == '}';
    hide PrintItem;
    LineWithin(m, i, text, SkipWs(text, 0));
    LineWithin(m, i, text, |text| - 1);
    assert Newlines(text) == Newlines(text[..|text| - 1]);
  }

  lemma {:induction false} BlockInside(m: string, i: nat, front: string, inside: string, pad: string)
    requires At(m, i, front + ("{" + (inside + (pad + "}"))))
    ensures At(m, i + |front| + 1, inside)
    ensures i + |front| + 1 <= |m| && LineAt(m, i + |front| + 1) == LineAt(m, i) + Newlines(front)
  {
    hide At;
    hide LineAt;
    AtConcat(m, i, front, "{" + (inside + (pad + "}")));
    AtConcat(m, i + |front|, "{", inside + (pad + "}"));
    AtConcat(m, i + |front| + 1, inside, pad + "}");
    LineAfter(m, i, front);
    LineAfter(m, i + |front|, "{");
    assert Newlines("{") == 0;
  }

  lemma {:induction false} RenderItem(m: string, i: nat, item: Item)
    requires At(m, i, PrintItem(item))
    ensures Renders(m, ItemExtents(item, i), ItemSpans(item, LineAt(m, i)))
    decreases item
  {
    hide At;
    hide PrintHead;
    hide LineAt;
    hide Renders;
    hide Print;
    match item
    case Function(_, _, _, _, _, _, _, _) => RenderFunction(m, i, item);
    case Block(lead, head, gap, items, pad) =>
      var front := lead + (PrintHead(head) + gap);
      BlockInside(m, i, front, Print(items), pad);
      RenderItems(m, i + |front| + 1, items);
    case _ => RenderNothing(m);
  }

  lemma {:induction false} RenderNothing(m: string)
    ensures Renders(m, [], [])
  {
  }

  lemma {:induction false} RenderItems(m: string, i: nat, items: Items)
    requires At(m, i, Print(items))
    ensures Renders(m, Extents(items, i), Spans(items, LineAt(m, i)))
    decreases items
  {
    hide PrintItem;
    hide ItemExtents;
    hide ItemSpans;
    match items
    case Nil =>
    case Cons(first, rest) =>
      AtConcat(m, i, PrintItem(first), Print(rest));
      LineAfter(m, i, PrintItem(first));
      RenderItem(m, i, first);
      RenderItems(m, i + |PrintItem(first)|, rest);
  }

  /**
  The extractor undoes the printer: whatever source text masks to a printed translation unit,
  exactly its function definitions are reported, in order, with their first and last lines.
  */
  lemma {:induction false} ExtractorUndoesPrinter(text: string, unit: Items, pad: string)
    requires Good(unit) && Quiet(pad) && Masked(text) == Print(unit) + pad
    ensures Extracted(text) == Spans(unit, 1)
  {
    hide Scan;
    hide Print;
    var m := Masked(text);
    var q := |Print(unit)|;
    assert m[0..|m|] == m;
    AtConcat(m, 0, Print(unit), pad);
    ScanItems(m, 0, unit);
    QuietUpToDelimiter(m, q, pad, q);
    ScanAtEnd(m, q);
    var extents := Extents(unit, 0);
    assert Scan(m, 0, 0) == extents + [];
    assert LineAt(m, 0) == 1;
    RenderItems(m, 0, unit);
    forall k | 0 <= k < |extents| ensures Extracted(text)[k] == Spans(unit, 1)[k] {
      assert ToSpan(m, extents[k]) == Spans(unit, 1)[k];
      MaskedLines(text, extents[k].start);
      MaskedLines(text, extents[k].stop - 1);
    }
  }

  lemma {:induction false} ScanAtEnd(m: string, seg: nat)
    requires seg <= |m|
    ensures Scan(m, |m|, seg) == []
  {
  }

  /** Text without comments, directives and literals. */
  predicate Plain(s: string) {
    forall k :: 0 <= k < |s| ==> s[k] != '#' && s[k] != '/' && s[k] != '"' && s[k] != '\''
  }

  lemma {:induction false} PlainModes(text: string, i: nat)
    requires Plain(text) && i <= |text|
    ensures ModeAt(text, i).Code?
  {
    if i > 0 {
      PlainModes(text, i - 1);
    }
  }

  lemma PlainIsUnmasked(text: string)
    requires Plain(text)
    ensures Masked(text) == text
  {
    forall i | 0 <= i < |text| ensures Masked(text)[i] == text[i] {
      PlainModes(text, i);
      PlainModes(text, i + 1);
    }
  }

  /** The round trip on printed units themselves. */
  lemma {:induction false} ParsePrintRoundTrip(unit: Items, pad: string)
    requires Good(unit) && Quiet(pad) && Plain(Print(unit) + pad)
    ensures Extracted(Print(unit) + pad) == Spans(unit, 1)
  {
    PlainIsUnmasked(Print(unit) + pad);
    ExtractorUndoesPrinter(Print(unit) + pad, unit, pad);
  }
}

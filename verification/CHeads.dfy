/**
Reading the text in front of an opening brace: the heads of namespaces, linkage blocks and class
bodies open a block that is scanned, and an initialiser's brace is skipped as a whole.
*/
module CHeads {
  import opened Masking
  import opened CParser
  import opened CGrammar

  // ---- Block heads ----

  /** Stripping keeps a slice, and drops only white space around it. */
  ghost predicate StripsTo(s: string, a: nat, b: nat) {
    && a <= b <= |s| && Strip(s) == s[a..b]
    && (forall k :: 0 <= k < a ==> IsSpace(s[k]))
    && (forall k :: b <= k < |s| ==> IsSpace(s[k]))
  }

  lemma {:induction false} StripLeftSlice(s: string) returns (a: nat)
    ensures a <= |s| && StripLeft(s) == s[a..] && forall k :: 0 <= k < a ==> IsSpace(s[k])
    ensures a < |s| ==> !IsSpace(s[a])
  {
    if |s| > 0 && IsSpace(s[0]) {
      var a' := StripLeftSlice(s[1..]);
      a := a' + 1;
      forall k | 0 <= k < a ensures IsSpace(s[k]) {
        assert k > 0 ==> s[1..][k - 1] == s[k];
      }
    } else {
      a := 0;
    }
  }

  lemma {:induction false} StripRightSlice(s: string) returns (b: nat)
    ensures b <= |s| && StripRight(s) == s[..b] && forall k :: b <= k < |s| ==> IsSpace(s[k])
    ensures b > 0 ==> !IsSpace(s[b - 1])
  {
    if |s| > 0 && IsSpace(s[|s| - 1]) {
      b := StripRightSlice(s[..|s| - 1]);
      assert s[..|s| - 1][..b] == s[..b];
      forall k | b <= k < |s| ensures IsSpace(s[k]) {
        assert k < |s| - 1 ==> s[..|s| - 1][k] == s[k];
      }
    } else {
      b := |s|;
    }
  }

  lemma StripSlice(s: string) returns (a: nat, b: nat)
    ensures StripsTo(s, a, b)
    ensures a < b ==> !IsSpace(s[a]) && !IsSpace(s[b - 1])
  {
    a := StripLeftSlice(s);
    var n := StripRightSlice(StripLeft(s));
    b := a + n;
    assert s[a..][..n] == s[a..b];
    forall k | b <= k < |s| ensures IsSpace(s[k]) {
      assert s[a..][k - a] == s[k];
    }
  }

  /** White space around a text that neither begins nor ends with any is stripped exactly. */
  lemma StripExact(lead: string, s: string, gap: string)
    requires Blanks(lead) && Blanks(gap)
    requires s != "" && !IsSpace(s[0]) && !IsSpace(s[|s| - 1])
    ensures Strip(lead + (s + gap)) == s
  {
    var t := lead + (s + gap);
    var a, b := StripSlice(t);
    assert t[|lead|] == s[0] && t[|lead| + |s| - 1] == s[|s| - 1];
    assert a == |lead| && b == |lead| + |s|;
  }

  lemma {:induction false} StripLeftExact(s: string)
    requires s != "" && !IsSpace(s[0])
    ensures StripLeft(" " + s) == s
  {
    var a := StripLeftSlice(" " + s);
    assert (" " + s)[1] == s[0];
  }

  lemma PlainNamespace(name: string)
    requires name == "" || Qualified(name)
    ensures IsNamespaceHead("namespace" + (if name == "" then "" else " " + name))
  {
    var plain := "namespace" + (if name == "" then "" else " " + name);
    assert plain[9..] == if name == "" then "" else " " + name;
    if name != "" {
      StripLeftExact(name);
    }
  }

  lemma InlineOpens(plain: string)
    requires IsNamespaceHead(plain) && plain != "" && !IsSpace(plain[0])
    ensures IsTransparent("inline " + plain)
  {
    hide IsNamespaceHead;
    hide IsLinkageHead;
    hide StripLeft;
    var s := "inline " + plain;
    assert s[..6] == "inline" && s[6..] == " " + plain;
    StripLeftExact(plain);
  }

  lemma NamespaceOpens(isInline: bool, name: string)
    requires name == "" || Qualified(name)
    ensures IsTransparent(PrintHead(Namespace(isInline, name)))
  {
    hide IsNamespaceHead;
    hide IsLinkageHead;
    hide IsTransparent;
    var plain := "namespace" + (if name == "" then "" else " " + name);
    PlainNamespace(name);
    assert plain[0] == 'n';
    if isInline {
      InlineOpens(plain);
    } else {
      assert "" + plain == plain;
      assert IsTransparent(plain) by {
        TransparentNamespace(plain);
      }
    }
  }

  lemma TransparentNamespace(s: string)
    requires IsNamespaceHead(s)
    ensures IsTransparent(s)
  {
    hide IsNamespaceHead;
  }

  lemma LinkageOpens(language: string)
    requires '"' !in language
    ensures IsTransparent(PrintHead(Linkage(language)))
  {
    var quoted := "\"" + (language + "\"");
    var s := "extern " + quoted;
    assert s[..6] == "extern" && s[6..] == " " + quoted;
    StripLeftExact(quoted);
    assert quoted[1..|quoted| - 1] == language;
  }

  lemma KeywordShape(keyword: string)
    requires keyword in TYPE_KEYWORDS
    ensures Identifier(keyword) && '=' !in keyword && Quiet(keyword)
    ensures forall k :: 0 <= k < |keyword| ==> !IsSpace(keyword[k])
  {
  }

  /** A word standing alone in a text stands alone in every slice that contains it. */
  lemma WordInSlice(front: string, word: string, back: string, a: nat, b: nat)
    requires Identifier(word)
    requires front != "" ==> !IsWord(front[|front| - 1])
    requires back != "" ==> !IsWord(back[0])
    requires a <= |front| && |front| + |word| <= b <= |front| + |word| + |back|
    ensures var s, k := (front + (word + back))[a..b], |front| - a;
            k < |s| && (k == 0 || !IsWord(s[k - 1])) && s[k..WordEnd(s, k)] == word
  {
    var n := b - |front|;
    SliceAcross(front, word + back, a, n);
    SliceAcross(word, back, 0, n - |word|);
    var lead, tail := front[a..], back[..n - |word|];
    var s, k := (front + (word + back))[a..b], |lead|;
    assert word[0..] == word && s == lead + (word + tail);
    assert k > 0 ==> s[k - 1] == lead[k - 1] == front[|front| - 1];
    assert k + |word| < |s| ==> s[k + |word|] == tail[0] == back[0];
    assert s[k..k + |word|] == word;
    AtIdentifier(s, k, word);
  }

  lemma {:induction false} SliceAcross(x: string, y: string, a: nat, n: nat)
    requires a <= |x| && n <= |y|
    ensures (x + y)[a..|x| + n] == x[a..] + y[..n]
  {
  }

  /** A type keyword standing alone marks a type body. */
  lemma KeywordOpens(front: string, keyword: string, back: string)
    requires keyword in TYPE_KEYWORDS
    requires front != "" ==> !IsWord(front[|front| - 1])
    requires back != "" ==> !IsWord(back[0])
    requires '=' !in front && '=' !in back
    ensures IsTypeBody(Strip(front + (keyword + back)))
  {
    hide StripLeft;
    hide StripRight;
    KeywordShape(keyword);
    var t := front + (keyword + back);
    var a, b := StripSlice(t);
    var n := |front|;
    assert t[n] == keyword[0] && t[n + |keyword| - 1] == keyword[|keyword| - 1];
    WordInSlice(front, keyword, back, a, b);
    assert TypeKeywordAt(t[a..b], n - a);
    assert '=' !in t;
  }

  /** The head of a class, struct, union or enum opens a scanned block. */
  lemma TypeHeadOpens(lead: string, before: string, keyword: string, after: string, gap: string)
    requires Blanks(lead) && Blanks(gap) && GoodHead(TypeHead(before, keyword, after))
    ensures IsTypeBody(Strip(lead + ((before + (keyword + after)) + gap)))
  {
    hide IsTypeBody;
    hide Strip;
    BlanksAreQuiet(lead);
    BlanksAreQuiet(gap);
    Assoc(before, keyword + after, gap);
    Assoc(keyword, after, gap);
    Assoc(lead, before, keyword + (after + gap));
    LastOf(lead, before);
    KeywordOpens(lead + before, keyword, after + gap);
  }

  lemma Assoc(a: string, b: string, c: string)
    ensures (a + b) + c == a + (b + c)
  {
  }

  lemma LastOf(a: string, b: string)
    ensures b != "" ==> (a + b)[|a + b| - 1] == b[|b| - 1]
    ensures b == "" ==> a + b == a
  {
  }

  lemma QuietConcat(a: string, b: string)
    requires Quiet(a) && Quiet(b)
    ensures Quiet(a + b)
  {
  }

  lemma BlanksAreQuiet(s: string)
    requires Blanks(s)
    ensures Quiet(s) && '=' !in s && (s != "" ==> !IsWord(s[0]) && !IsWord(s[|s| - 1]))
  {
  }

  /** A printed head is quiet, and one without a type keyword is not padded itself. */
  lemma HeadShape(head: Head)
    requires GoodHead(head)
    ensures Quiet(PrintHead(head))
    ensures !head.TypeHead? ==>
              var s := PrintHead(head);
              s != "" && !IsSpace(s[0]) && !IsSpace(s[|s| - 1]) && IsTransparent(s)
  {
    hide IsTransparent;
    match head
    case Namespace(isInline, name) => NamespaceShape(isInline, name);
    case Linkage(language) => LinkageShape(language);
    case TypeHead(before, keyword, after) =>
      KeywordShape(keyword);
      QuietConcat(keyword, after);
      QuietConcat(before, keyword + after);
  }

  lemma {:induction false} NamespaceShape(isInline: bool, name: string)
    requires name == "" || Qualified(name)
    ensures var s := PrintHead(Namespace(isInline, name));
            Quiet(s) && s != "" && !IsSpace(s[0]) && !IsSpace(s[|s| - 1]) && IsTransparent(s)
  {
    NamespaceOpens(isInline, name);
    PlainNamespaceShape(name);
    var front := if isInline then "inline " else "";
    var plain := "namespace" + (if name == "" then "" else " " + name);
    PrintedNamespace(isInline, name);
    InlineShape(front);
    hide *;
    QuietConcat(front, plain);
    EndsOfConcat(front, plain);
  }

  lemma PrintedNamespace(isInline: bool, name: string)
    ensures PrintHead(Namespace(isInline, name)) ==
            (if isInline then "inline " else "") + ("namespace" + (if name == "" then "" else " " + name))
  {
  }

  lemma InlineShape(front: string)
    requires front == "" || front == "inline "
    ensures Quiet(front) && !IsSpace('n') && (front != "" ==> !IsSpace(front[0]))
  {
  }

  lemma EndsOfConcat(a: string, b: string)
    requires b != ""
    ensures (a + b)[|a + b| - 1] == b[|b| - 1] && (a + b)[0] == if a == "" then b[0] else a[0]
  {
  }

  lemma {:induction false} PlainNamespaceShape(name: string)
    requires name == "" || Qualified(name)
    ensures var s := "namespace" + (if name == "" then "" else " " + name);
            Quiet(s) && s != "" && s[0] == 'n' && !IsSpace(s[|s| - 1])
  {
    if name != "" {
      assert IsWord(name[|name| - 1]) || name[|name| - 1] == ':';
      QuietConcat(" ", name);
      QuietConcat("namespace", " " + name);
    } else {
      assert "namespace" + "" == "namespace";
    }
  }

  lemma {:induction false} LinkageShape(language: string)
    requires Quiet(language) && '"' !in language
    ensures var s := PrintHead(Linkage(language));
            Quiet(s) && s != "" && !IsSpace(s[0]) && !IsSpace(s[|s| - 1]) && IsTransparent(s)
  {
    hide IsTransparent;
    LinkageOpens(language);
    var s := PrintHead(Linkage(language));
    assert Quiet("extern ") && Quiet("\"");
    QuietConcat(language, "\"");
    QuietConcat("\"", language + "\"");
    QuietConcat("extern ", "\"" + (language + "\""));
    assert s[|s| - 1] == '"' && s[0] == 'e';
  }

  /** A well-formed head opens a block that is scanned. */
  lemma HeadOpens(lead: string, head: Head, gap: string)
    requires Blanks(lead) && GoodHead(head) && Blanks(gap)
    ensures OpensScannedBlock(lead + (PrintHead(head) + gap))
    ensures Quiet(lead + (PrintHead(head) + gap))
  {
    hide IsTransparent;
    hide IsTypeBody;
    hide Strip;
    HeadShape(head);
    BlanksAreQuiet(lead);
    BlanksAreQuiet(gap);
    if head.TypeHead? {
      TypeHeadOpens(lead, head.before, head.keyword, head.after, gap);
    } else {
      hide PrintHead;
      StripExact(lead, PrintHead(head), gap);
    }
    QuietConcat(PrintHead(head), gap);
    QuietConcat(lead, PrintHead(head) + gap);
  }

  lemma NamespaceHeadHasNoEquals(s: string)
    requires IsNamespaceHead(s)
    ensures '=' !in s
  {
    var a := StripLeftSlice(s[9..]);
    forall e | 0 <= e < |s| ensures s[e] != '=' {
      assert e < 9 ==> s[..9][e] == s[e];
      assert 9 <= e < 9 + a ==> IsSpace(s[9..][e - 9]);
      assert 9 + a <= e ==> s[9..][a..][e - 9 - a] == s[e];
    }
  }

  lemma InlineHeadHasNoEquals(s: string)
    requires StartsWith(s, "inline") && IsNamespaceHead(StripLeft(s[6..]))
    ensures '=' !in s
  {
    hide IsNamespaceHead;
    var a := StripLeftSlice(s[6..]);
    NamespaceHeadHasNoEquals(StripLeft(s[6..]));
    forall e | 0 <= e < |s| ensures s[e] != '=' {
      assert e < 6 ==> s[..6][e] == s[e];
      assert 6 <= e < 6 + a ==> IsSpace(s[6..][e - 6]);
      assert 6 + a <= e ==> s[6..][a..][e - 6 - a] == s[e];
    }
  }

  /** An `=` in front of the brace makes it an initialiser, which is skipped, unless the `=` is in
      the quotes of a linkage block. */
  lemma InitialiserIsSkipped(lead: string)
    requires '=' in lead
    ensures OpensScannedBlock(lead) <==> IsLinkageHead(Strip(lead))
  {
    hide IsNamespaceHead;
    hide IsLinkageHead;
    var a, b := StripSlice(lead);
    var s := Strip(lead);
    var k :| 0 <= k < |lead| && lead[k] == '=';
    assert s[k - a] == '=';
    if IsNamespaceHead(s) {
      NamespaceHeadHasNoEquals(s);
    } else if IsTransparent(s) && !IsLinkageHead(s) {
      InlineHeadHasNoEquals(s);
    }
  }

  // ---- Which heads are entered, as patterns ----

  predicate Spaces(s: string) {
    forall k :: 0 <= k < |s| ==> IsSpace(s[k])
  }

  lemma {:induction false} SplitLeft(s: string) returns (ws: string)
    ensures s == ws + StripLeft(s) && Spaces(ws)
    ensures StripLeft(s) != "" ==> !IsSpace(StripLeft(s)[0])
    decreases |s|
  {
    ws := "";
    if s != "" && IsSpace(s[0]) {
      var rest := SplitLeft(s[1..]);
      ws := [s[0]] + rest;
    }
  }

  lemma {:induction false} JoinLeft(ws: string, s: string)
    requires Spaces(ws) && (s != "" ==> !IsSpace(s[0]))
    ensures StripLeft(ws + s) == s
    decreases |ws|
  {
    if ws == "" {
      assert ws + s == s;
    } else {
      assert (ws + s)[1..] == ws[1..] + s;
      JoinLeft(ws[1..], s);
    }
  }

  /** `extern`, white space or none, and one literal. */
  ghost predicate LinkagePattern(s: string, ws: string, language: string) {
    Spaces(ws) && '"' !in language && s == "extern" + (ws + ("\"" + (language + "\"")))
  }

  lemma {:induction false} LinkageSplits(s: string) returns (ws: string, language: string)
    requires IsLinkageHead(s)
    ensures LinkagePattern(s, ws, language)
  {
    ws := SplitLeft(s[6..]);
    var rest := StripLeft(s[6..]);
    hide StripLeft;
    language := rest[1..|rest| - 1];
    assert rest == "\"" + (language + "\"");
    assert s == s[..6] + s[6..];
  }

  lemma {:induction false} LinkageJoins(s: string, ws: string, language: string)
    requires LinkagePattern(s, ws, language)
    ensures IsLinkageHead(s)
  {
    var literal := "\"" + (language + "\"");
    assert s[..6] == "extern" && s[6..] == ws + literal;
    JoinLeft(ws, literal);
    hide StripLeft;
    assert literal[1..|literal| - 1] == language;
  }

  lemma {:induction false} LinkageExactly(s: string)
    ensures IsLinkageHead(s) <==> exists ws, language :: LinkagePattern(s, ws, language)
  {
    hide *;
    if IsLinkageHead(s) {
      var ws, language := LinkageSplits(s);
    }
    if ws, language :| LinkagePattern(s, ws, language) {
      LinkageJoins(s, ws, language);
    }
  }

  /** `namespace`, and behind white space a name or none. */
  ghost predicate NamespacePattern(s: string, ws: string, name: string) {
    && Spaces(ws) && s == "namespace" + (ws + name)
    && (if name == "" then ws == "" else ws != "" && Qualified(name))
  }

  lemma {:induction false} NamespaceSplits(s: string) returns (ws: string, name: string)
    requires IsNamespaceHead(s)
    ensures NamespacePattern(s, ws, name)
  {
    ws := SplitLeft(s[9..]);
    name := StripLeft(s[9..]);
    assert s == s[..9] + s[9..];
    if s[9..] == "" {
      ws, name := "", "";
    }
  }

  lemma {:induction false} NamespaceJoins(s: string, ws: string, name: string)
    requires NamespacePattern(s, ws, name)
    ensures IsNamespaceHead(s)
  {
    assert s[..9] == "namespace" && s[9..] == ws + name;
    if name != "" {
      JoinLeft(ws, name);
    }
  }

  lemma {:induction false} NamespaceExactly(s: string)
    ensures IsNamespaceHead(s) <==> exists ws, name :: NamespacePattern(s, ws, name)
  {
    hide *;
    if IsNamespaceHead(s) {
      var ws, name := NamespaceSplits(s);
    }
    if ws, name :| NamespacePattern(s, ws, name) {
      NamespaceJoins(s, ws, name);
    }
  }

  /** A type keyword as a word of its own. */
  ghost predicate TypePattern(s: string, a: string, keyword: string, b: string) {
    && s == a + (keyword + b)
    && (keyword == "class" || keyword == "struct" || keyword == "union" || keyword == "enum")
    && (a != "" ==> !IsWord(a[|a| - 1])) && (b != "" ==> !IsWord(b[0]))
  }

  lemma {:induction false} WordEndIs(s: string, k: nat, e: nat)
    requires k <= e <= |s| && (forall i :: k <= i < e ==> IsWord(s[i])) && (e < |s| ==> !IsWord(s[e]))
    ensures WordEnd(s, k) == e
    decreases e - k
  {
    if k < e {
      WordEndIs(s, k + 1, e);
    }
  }

  lemma {:induction false} KeywordSplits(s: string, k: nat) returns (a: string, keyword: string, b: string)
    requires k < |s| && TypeKeywordAt(s, k)
    ensures TypePattern(s, a, keyword, b)
  {
    var e := WordEnd(s, k);
    a, keyword, b := s[..k], s[k..e], s[e..];
    TypeWordsExactly(keyword);
    assert s == a + (keyword + b);
  }

  lemma {:induction false} TypeBodyExactly(s: string)
    ensures IsTypeBody(s) <==> '=' !in s && exists a, keyword, b :: TypePattern(s, a, keyword, b)
  {
    hide TypeKeywordAt;
    hide TypePattern;
    if k :| 0 <= k < |s| && TypeKeywordAt(s, k) {
      var a, keyword, b := KeywordSplits(s, k);
    }
    if a, keyword, b :| TypePattern(s, a, keyword, b) {
      KeywordIsThere(s, a, keyword, b);
    }
  }

  lemma {:induction false} KeywordIsThere(s: string, a: string, keyword: string, b: string)
    requires TypePattern(s, a, keyword, b)
    ensures |a| < |s| && TypeKeywordAt(s, |a|)
  {
    var k, e := |a|, |a| + |keyword|;
    assert s[k..e] == keyword;
    TypeWordsExactly(keyword);
    forall i | k <= i < e ensures IsWord(s[i]) {
      assert s[i] == keyword[i - k];
    }
    WordEndIs(s, k, e);
  }
}

/** Relative paths as they are stored: normalised, with `/` between the segments. */
module Paths {
  import opened Database

  /** White space as `str.strip` understands it. */
  predicate Blank(c: char) {
    || '\t' <= c <= '\r' || '\U{1c}' <= c <= ' ' || c == '\U{85}' || c == '\U{a0}' || c == '\U{1680}'
    || '\U{2000}' <= c <= '\U{200a}' || c == '\U{2028}' || c == '\U{2029}' || c == '\U{202f}'
    || c == '\U{205f}' || c == '\U{3000}'
  }

  lemma BlanksExactly(c: char)
    ensures Blank(c) <==>
            || 9 <= c as int <= 13 || 28 <= c as int <= 32 || c as int == 133 || c as int == 160 || c as int == 5760
            || 8192 <= c as int <= 8202 || c as int == 8232 || c as int == 8233 || c as int == 8239
            || c as int == 8287 || c as int == 12288
  {
  }

  function StripLeft(s: string): string {
    if s != "" && Blank(s[0]) then StripLeft(s[1..]) else s
  }

  function StripRight(s: string): string {
    if s != "" && Blank(s[|s| - 1]) then StripRight(s[..|s| - 1]) else s
  }

  function Slashes(s: string): string {
    seq(|s|, i requires 0 <= i < |s| => if s[i] == '\\' then '/' else s[i])
  }

  function DropSlashes(s: string): string {
    if s != "" && s[0] == '/' then DropSlashes(s[1..]) else s
  }

  /** The segments between slashes, empty ones included. */
  function Split(s: string): (segments: seq<string>)
    ensures segments != []
  {
    if s == "" then [""]
    else
      var front, c := Split(s[..|s| - 1]), s[|s| - 1];
      if c == '/' then front + [""] else front[|front| - 1 := front[|front| - 1] + [c]]
  }

  function Join(parts: seq<string>): string {
    if parts == [] then ""
    else if |parts| == 1 then parts[0]
    else Join(parts[..|parts| - 1]) + "/" + parts[|parts| - 1]
  }

  /** Empty and `.` segments are dropped; `..` is refused. */
  function Kept(segments: seq<string>): Option<seq<string>> {
    if segments == [] then Some([])
    else
      var front, last := Kept(segments[..|segments| - 1]), segments[|segments| - 1];
      if front.None? || last == ".." then None
      else if last == "" || last == "." then front
      else Some(front.value + [last])
  }

  function Segments(path: string): seq<string> {
    Split(DropSlashes(Slashes(StripRight(StripLeft(path)))))
  }

  /** `normalize_rel_path`; nothing for a path that climbs with `..`. */
  function Normalize(path: string): Option<string> {
    var kept := Kept(Segments(path));
    if kept.None? then None else Some(Join(kept.value))
  }

  /** One `..` spoils the whole path. */
  lemma {:induction false} KeptFails(segments: seq<string>, i: nat)
    requires i <= |segments| && Kept(segments[..i]).None?
    ensures Kept(segments).None?
    decreases |segments|
  {
    if i < |segments| {
      var front := segments[..|segments| - 1];
      assert front[..i] == segments[..i];
      KeptFails(front, i);
    } else {
      assert segments[..i] == segments;
    }
  }

  method NormalizeRelPath(path: string) returns (rel: Option<string>)
    ensures rel == Normalize(path)
  {
    var segments := Segments(path);
    var parts: seq<string> := [];
    for i := 0 to |segments|
      invariant Kept(segments[..i]) == Some(parts)
    {
      assert segments[..i + 1][..i] == segments[..i];
      if segments[i] == "" || segments[i] == "." {
        continue;
      }
      if segments[i] == ".." {
        KeptFails(segments, i + 1);
        return None;
      }
      parts := parts + [segments[i]];
    }
    assert segments[..|segments|] == segments;
    return Some(Join(parts));
  }

  /** The last segment. */
  function Name(rel: string): string {
    var segments := Split(rel);
    segments[|segments| - 1]
  }

  /** Everything in front of the last dot of a file name. */
  function BeforeDot(name: string): Option<string> {
    if name == "" then None
    else if name[|name| - 1] == '.' then Some(name[..|name| - 1])
    else BeforeDot(name[..|name| - 1])
  }

  function Stem(rel: string): string {
    match BeforeDot(Name(rel))
    case None => Name(rel)
    case Some(stem) => stem
  }

  // ---- When normalising again changes nothing ----

  predicate NoSlash(s: string) {
    forall i :: 0 <= i < |s| ==> s[i] != '/' && s[i] != '\\'
  }

  predicate GoodSegment(s: string) {
    s != "" && s != "." && s != ".." && NoSlash(s)
  }

  predicate GoodSegments(parts: seq<string>) {
    forall i :: 0 <= i < |parts| ==> GoodSegment(parts[i])
  }

  lemma {:induction false} SplitAppend(s: string, w: string)
    requires NoSlash(w)
    ensures Split(w) == [w]
    ensures Split(s + "/" + w) == Split(s) + [w]
    decreases |w|
  {
    if w == "" {
      assert (s + "/" + w)[..|s|] == s;
    } else {
      var front, c := w[..|w| - 1], w[|w| - 1];
      SplitAppend(s, front);
      assert (s + "/" + w)[..|s| + |w|] == s + "/" + front;
      assert w == front + [c];
    }
  }

  lemma {:induction false} SplitUndoesJoin(parts: seq<string>)
    requires parts != [] && GoodSegments(parts)
    ensures Split(Join(parts)) == parts
    decreases |parts|
  {
    var front, last := parts[..|parts| - 1], parts[|parts| - 1];
    SplitAppend(Join(front), last);
    if |parts| > 1 {
      SplitUndoesJoin(front);
      assert parts == front + [last];
    }
  }

  lemma {:induction false} JoinUndoesSplit(s: string)
    ensures Join(Split(s)) == s
  {
    if s != "" {
      var t, c := s[..|s| - 1], s[|s| - 1];
      JoinUndoesSplit(t);
      var front := Split(t);
      if c == '/' {
        assert (front + [""])[..|front|] == front;
      } else {
        var all := front[|front| - 1 := front[|front| - 1] + [c]];
        assert all[..|front| - 1] == front[..|front| - 1];
      }
      assert s == t + [c];
    }
  }

  lemma {:induction false} SplitHasNoSlash(s: string)
    requires forall i :: 0 <= i < |s| ==> s[i] != '\\'
    ensures forall k :: 0 <= k < |Split(s)| ==> NoSlash(Split(s)[k])
  {
    if s != "" {
      SplitHasNoSlash(s[..|s| - 1]);
    }
  }

  lemma {:induction false} KeptIsGood(segments: seq<string>)
    requires Kept(segments).Some? && forall k :: 0 <= k < |segments| ==> NoSlash(segments[k])
    ensures GoodSegments(Kept(segments).value)
    ensures |Join(Kept(segments).value)| <= |Join(segments)|
    decreases |segments|
  {
    if segments != [] {
      var front := segments[..|segments| - 1];
      KeptIsGood(front);
      var parts, all := Kept(front).value, Kept(segments).value;
      if all != parts {
        assert all[..|parts|] == parts;
      }
    }
  }

  lemma {:induction false} GoodIsKept(parts: seq<string>)
    requires GoodSegments(parts)
    ensures Kept(parts) == Some(parts)
    decreases |parts|
  {
    if parts != [] {
      GoodIsKept(parts[..|parts| - 1]);
      assert parts == parts[..|parts| - 1] + [parts[|parts| - 1]];
    }
  }

  lemma {:induction false} JoinOfGood(parts: seq<string>)
    requires parts != [] && GoodSegments(parts)
    ensures Join(parts) != "" && Join(parts)[0] != '/'
    ensures forall i :: 0 <= i < |Join(parts)| ==> Join(parts)[i] != '\\'
    decreases |parts|
  {
    if |parts| > 1 {
      JoinOfGood(parts[..|parts| - 1]);
    }
  }

  lemma {:induction false} StripShrinks(s: string)
    ensures |StripLeft(s)| <= |s| && |StripRight(s)| <= |s| && |DropSlashes(s)| <= |s|
    ensures s != "" && Blank(s[0]) ==> |StripLeft(s)| < |s|
    ensures s != "" && Blank(s[|s| - 1]) ==> |StripRight(s)| < |s|
  {
    if s != "" {
      StripShrinks(s[1..]);
      StripShrinks(s[..|s| - 1]);
    }
  }

  /** A normal form has blanks at neither end. */
  predicate Trimmed(rel: string) {
    rel != "" ==> !Blank(rel[0]) && !Blank(rel[|rel| - 1])
  }

  lemma {:induction false} NormalizeShape(path: string)
    requires Normalize(path).Some?
    ensures var parts := Kept(Segments(path)).value;
            Normalize(path).value == Join(parts) && GoodSegments(parts)
    ensures |Normalize(path).value| <= |StripRight(StripLeft(path))|
  {
    var t := Slashes(StripRight(StripLeft(path)));
    StripShrinks(t);
    NoBackslashLeft(t);
    SplitHasNoSlash(DropSlashes(t));
    KeptIsGood(Segments(path));
    JoinUndoesSplit(DropSlashes(t));
  }

  lemma {:induction false} NoBackslashLeft(s: string)
    requires forall i :: 0 <= i < |s| ==> s[i] != '\\'
    ensures forall i :: 0 <= i < |DropSlashes(s)| ==> DropSlashes(s)[i] != '\\'
  {
    if s != "" && s[0] == '/' {
      NoBackslashLeft(s[1..]);
    }
  }

  /** Normalising what was normalised changes nothing exactly when there is no blank at an end. */
  lemma NormalFormIsStable(path: string)
    requires Normalize(path).Some?
    ensures var rel := Normalize(path).value;
            Normalize(rel) == Some(rel) <==> Trimmed(rel)
  {
    var rel := Normalize(path).value;
    var parts := Kept(Segments(path)).value;
    NormalizeShape(path);
    if Trimmed(rel) {
      assert StripRight(StripLeft(rel)) == rel;
      if parts != [] {
        JoinOfGood(parts);
        assert Slashes(rel) == rel;
        SplitUndoesJoin(parts);
        GoodIsKept(parts);
      } else {
        assert Slashes(rel) == "" && Split("") == [""] && [""][..0] == [];
        assert Kept([]) == Some([]);
        assert Kept([""]) == Some([]);
      }
    } else if Normalize(rel).Some? {
      NormalizeShape(rel);
      StripShrinks(rel);
      StripShrinks(StripLeft(rel));
      LastStays(rel);
    }
  }

  /** Stripping on the left keeps the last character, unless nothing is left. */
  lemma {:induction false} LastStays(s: string)
    ensures var t := StripLeft(s); t != "" ==> t[|t| - 1] == s[|s| - 1]
    ensures |StripLeft(s)| <= |s|
  {
    if s != "" {
      LastStays(s[1..]);
    }
  }

  lemma {:induction false} OneSegment(path: string, segment: string)
    requires GoodSegment(segment)
    requires DropSlashes(Slashes(StripRight(StripLeft(path)))) == segment
    ensures Normalize(path) == Some(segment)
  {
    SplitAppend("", segment);
    GoodIsKept([segment]);
  }

  /** The leading slash is taken off after the blanks, so that one round can leave a blank. */
  lemma NormalFormMayChange()
    ensures Normalize("/ a") == Some(" a") && Normalize(" a") == Some("a")
  {
    assert StripRight(StripLeft("/ a")) == "/ a";
    assert Slashes("/ a") == "/ a" && DropSlashes("/ a") == " a";
    assert StripRight(StripLeft(" a")) == "a";
    assert Slashes("a") == "a" && DropSlashes("a") == "a";
    hide StripLeft;
    hide StripRight;
    hide Normalize;
    OneSegment("/ a", " a");
    OneSegment(" a", "a");
  }

  // ---- Printed paths ----

  lemma {:induction false} NameIs(dir: string, name: string)
    requires NoSlash(name)
    ensures Name(name) == name && Name(dir + "/" + name) == name
  {
    SplitAppend(dir, name);
  }

  lemma {:induction false} BeforeDotIs(base: string, ext: string)
    requires '.' !in ext
    ensures BeforeDot(ext) == None && BeforeDot(base + "." + ext) == Some(base)
    decreases |ext|
  {
    if ext == "" {
      assert (base + "." + ext)[..|base|] == base;
    } else {
      var front := ext[..|ext| - 1];
      BeforeDotIs(base, front);
      assert (base + "." + ext)[..|base| + 1 + |front|] == base + "." + front;
    }
  }

  /** The stem of a file is its name up to the last dot, in whatever directory it is. */
  lemma {:induction false} StemIs(dir: string, base: string, ext: string)
    requires NoSlash(base) && NoSlash(ext) && '.' !in ext
    ensures Stem(base + "." + ext) == base && Stem(dir + "/" + (base + "." + ext)) == base
    ensures Stem(ext) == ext && Stem(dir + "/" + ext) == ext
  {
    BeforeDotIs(base, ext);
    NameIs(dir, base + "." + ext);
    NameIs(dir, ext);
  }

  /** The segments that count. */
  function Solid(segments: seq<string>): seq<string> {
    if segments == [] then []
    else (if segments[0] == "" || segments[0] == "." then [] else [segments[0]]) + Solid(segments[1..])
  }

  lemma {:induction false} SolidSnoc(segments: seq<string>, last: string)
    ensures Solid(segments + [last]) == Solid(segments) + (if last == "" || last == "." then [] else [last])
    decreases |segments|
  {
    if segments == [] {
      assert Solid([]) == [] && [last][1..] == [];
    } else {
      SolidSnoc(segments[1..], last);
      assert (segments + [last])[1..] == segments[1..] + [last];
    }
  }

  lemma {:induction false} KeptIsSolid(segments: seq<string>)
    ensures Kept(segments) == if ".." in segments then None else Some(Solid(segments))
    decreases |segments|
  {
    if segments != [] {
      var front, last := segments[..|segments| - 1], segments[|segments| - 1];
      KeptIsSolid(front);
      SolidSnoc(front, last);
      assert segments == front + [last];
      assert ".." in segments <==> ".." in front || last == "..";
      assert Solid(front) + [] == Solid(front);
    }
  }

  lemma {:induction false} SplitOfJoined(segments: seq<string>)
    requires segments != [] && forall k :: 0 <= k < |segments| ==> NoSlash(segments[k])
    ensures Split(Join(segments)) == segments
    decreases |segments|
  {
    var front, last := segments[..|segments| - 1], segments[|segments| - 1];
    SplitAppend(Join(front), last);
    if |segments| > 1 {
      SplitOfJoined(front);
      assert segments == front + [last];
    }
  }

  /** Leading slashes are leading empty segments. */
  lemma {:induction false} SplitFirst(s: string)
    ensures Split("/" + s) == [""] + Split(s)
    decreases |s|
  {
    if s == "" {
      assert ("/" + s)[..0] == "" && Split("") == [""];
      assert Split("/") == [""] + [""];
    } else {
      var front, c := s[..|s| - 1], s[|s| - 1];
      SplitFirst(front);
      assert ("/" + s)[..|s|] == "/" + front;
    }
  }

  lemma {:induction false} KeptOfDropped(s: string)
    ensures Kept(Split(DropSlashes(s))) == Kept(Split(s))
    decreases |s|
  {
    if s != "" && s[0] == '/' {
      KeptOfDropped(s[1..]);
      SplitFirst(s[1..]);
      assert s == "/" + s[1..];
      KeptIsSolid(Split(s));
      KeptIsSolid(Split(s[1..]));
      assert ([""] + Split(s[1..]))[1..] == Split(s[1..]) && ([""] + Split(s[1..]))[0] == "";
      assert Split(s) == [""] + Split(s[1..]);
      assert Solid(Split(s)) == [] + Solid(Split(s[1..])) == Solid(Split(s[1..]));
      assert ".." in Split(s) <==> ".." in Split(s[1..]);
    }
  }

  lemma {:induction false} NothingToStrip(s: string)
    requires Trimmed(s)
    ensures StripRight(StripLeft(s)) == s
  {
  }

  /** A path is normalised to its segments but for empty ones and dots, and refused if it climbs. */
  lemma {:induction false} NormalizeReads(segments: seq<string>)
    requires segments != [] && forall k :: 0 <= k < |segments| ==> NoSlash(segments[k])
    requires Trimmed(Join(segments))
    ensures Normalize(Join(segments)) == if ".." in segments then None else Some(Join(Solid(segments)))
  {
    var s := Join(segments);
    NothingToStrip(s);
    JoinHasNoBackslash(segments);
    assert Slashes(s) == s;
    KeptOfDropped(s);
    SplitOfJoined(segments);
    KeptIsSolid(segments);
  }

  lemma {:induction false} JoinHasNoBackslash(segments: seq<string>)
    requires forall k :: 0 <= k < |segments| ==> NoSlash(segments[k])
    ensures forall i :: 0 <= i < |Join(segments)| ==> Join(segments)[i] != '\\'
    decreases |segments|
  {
    if |segments| > 1 {
      JoinHasNoBackslash(segments[..|segments| - 1]);
    }
  }

  lemma {:induction false} SlashesStrip(s: string)
    ensures Slashes(StripLeft(s)) == StripLeft(Slashes(s)) && Slashes(StripRight(s)) == StripRight(Slashes(s))
    decreases |s|
  {
    if s != "" {
      SlashesStrip(s[1..]);
      SlashesStrip(s[..|s| - 1]);
      assert Slashes(s)[1..] == Slashes(s[1..]) && Slashes(s)[..|s| - 1] == Slashes(s[..|s| - 1]);
    }
  }

  /** Backslashes are slashes. */
  lemma {:induction false} BackslashIsSlash(s: string, t: string)
    requires |s| == |t| && forall i :: 0 <= i < |s| ==> t[i] == if s[i] == '\\' then '/' else s[i]
    ensures Normalize(s) == Normalize(t)
  {
    assert Slashes(s) == t && Slashes(t) == t;
    SlashesStrip(s);
    SlashesStrip(StripLeft(s));
    SlashesStrip(t);
    SlashesStrip(StripLeft(t));
  }
}

/** The scan for missing tests: which jobs it queues for which targets. */
module AutoScan {
  import opened Database
  import opened Paths
  import opened Enqueue
  import opened CParser
  import opened ChangeDetection

  /** What extracting the functions of a file gives. */
  datatype Source = NoFile | Unreadable | ExtractorFailed | Spans(spans: seq<FunctionSpan>)

  /** The generated tests by source stem, passed and failed, and the sources by path. */
  datatype Checkout = Checkout(
    passed: map<string, seq<string>>,
    failed: map<string, seq<string>>,
    sources: map<string, Source>)

  function SourceOf(c: Checkout, rel: string): Source {
    if rel in c.sources then c.sources[rel] else NoFile
  }

  function Tests(c: Checkout, rel: string): seq<string> {
    var stem := Stem(rel);
    (if stem in c.passed then c.passed[stem] else []) + (if stem in c.failed then c.failed[stem] else [])
  }

  // ---- _covered_functions ----

  predicate IsTestStem(stem: string) {
    |stem| > 5 && Lower(stem[|stem| - 5..]) == "_test"
  }

  function TestedName(stem: string): string
    requires IsTestStem(stem)
  {
    Lower(stem[..|stem| - 5])
  }

  function CoveredNames(tests: seq<string>): set<string> {
    set k | 0 <= k < |tests| && IsTestStem(Stem(tests[k])) :: TestedName(Stem(tests[k]))
  }

  method CoveredFunctions(tests: seq<string>) returns (covered: set<string>)
    ensures covered == CoveredNames(tests)
  {
    hide Stem;
    hide IsTestStem;
    hide TestedName;
    covered := {};
    for k := 0 to |tests|
      invariant covered == CoveredNames(tests[..k])
    {
      var stem := Stem(tests[k]);
      ghost var next := tests[..k + 1];
      assert next[k] == tests[k] && forall i :: 0 <= i < k ==> next[i] == tests[..k][i];
      if IsTestStem(stem) {
        covered := covered + {TestedName(stem)};
      }
    }
    assert tests[..|tests|] == tests;
  }

  lemma LowerConcat(a: string, b: string)
    ensures Lower(a + b) == Lower(a) + Lower(b)
  {
  }

  /** A name is covered exactly when there is a test file `<name>_test.*`, whatever the case. */
  lemma CoveredExactly(tests: seq<string>, low: string)
    ensures low in CoveredNames(tests) <==>
              low != "" && exists k :: 0 <= k < |tests| && Lower(Stem(tests[k])) == low + "_test"
  {
    hide Stem;
    forall k | 0 <= k < |tests|
      ensures (IsTestStem(Stem(tests[k])) && TestedName(Stem(tests[k])) == low) <==>
                (low != "" && Lower(Stem(tests[k])) == low + "_test")
    {
      TestStem(Stem(tests[k]), low);
    }
  }

  /** A generated test, passed or failed, is listed under the stem of the target. */
  predicate Listed(c: Checkout, rel: string, file: string) {
    (Stem(rel) in c.passed && file in c.passed[Stem(rel)]) || (Stem(rel) in c.failed && file in c.failed[Stem(rel)])
  }

  /** Some test of the target is called `<name>_test.*`, whatever the case. */
  ghost predicate HasTest(c: Checkout, rel: string, name: string) {
    exists file :: Listed(c, rel, file) && Lower(Stem(file)) == Lower(name) + "_test"
  }

  lemma TestsAreListed(c: Checkout, rel: string)
    ensures forall file :: file in Tests(c, rel) <==> Listed(c, rel, file)
    ensures Tests(c, rel) == [] <==> forall file :: !Listed(c, rel, file)
  {
    hide Stem;
    var tests := Tests(c, rel);
    forall file ensures file in tests <==> Listed(c, rel, file) {
    }
    if tests != [] {
      assert tests[0] in tests;
    }
  }

  lemma CoveredHasTest(c: Checkout, rel: string, name: string)
    requires name != ""
    ensures Lower(name) in CoveredNames(Tests(c, rel)) <==> HasTest(c, rel, name)
  {
    var tests := Tests(c, rel);
    CoveredExactly(tests, Lower(name));
    TestsAreListed(c, rel);
    hide Stem;
    hide Listed;
    hide Tests;
    hide CoveredNames;
    if HasTest(c, rel, name) {
      var file :| Listed(c, rel, file) && Lower(Stem(file)) == Lower(name) + "_test";
      var k :| 0 <= k < |tests| && tests[k] == file;
    }
    if Lower(name) in CoveredNames(tests) {
      var k :| 0 <= k < |tests| && Lower(Stem(tests[k])) == Lower(name) + "_test";
      assert tests[k] in tests;
    }
  }

  lemma TestStem(stem: string, low: string)
    ensures (IsTestStem(stem) && TestedName(stem) == low) <==> (low != "" && Lower(stem) == low + "_test")
  {
    if |stem| > 5 {
      var a, b := stem[..|stem| - 5], stem[|stem| - 5..];
      assert stem == a + b;
      LowerConcat(a, b);
      if Lower(stem) == low + "_test" {
        assert Lower(a) == (low + "_test")[..|stem| - 5] && Lower(b) == (low + "_test")[|stem| - 5..];
      }
    }
  }

  // ---- The functions without a test ----

  function FoldedNames(spans: seq<FunctionSpan>): set<string> {
    set k | 0 <= k < |spans| :: Lower(spans[k].name)
  }

  /** The first span of each case-folded name that is not covered. */
  function Missing(spans: seq<FunctionSpan>, covered: set<string>): seq<string> {
    if spans == [] then []
    else
      var front, span := spans[..|spans| - 1], spans[|spans| - 1];
      Missing(front, covered)
      + (if Lower(span.name) !in FoldedNames(front) && Lower(span.name) !in covered then [span.name] else [])
  }

  method MissingFunctions(spans: seq<FunctionSpan>, covered: set<string>) returns (missing: seq<string>)
    ensures missing == Missing(spans, covered)
  {
    hide Lower;
    missing := [];
    var seen: set<string> := {};
    for k := 0 to |spans|
      invariant missing == Missing(spans[..k], covered) && seen == FoldedNames(spans[..k])
    {
      var low := Lower(spans[k].name);
      ghost var next := spans[..k + 1];
      assert next[..k] == spans[..k] && next[k] == spans[k];
      assert forall i :: 0 <= i < k ==> next[i] == spans[..k][i];
      if low in seen {
        continue;
      }
      seen := seen + {low};
      if low !in covered {
        missing := missing + [spans[k].name];
      }
    }
    assert spans[..|spans|] == spans;
  }

  /** Exactly the uncovered case-folded names are missing. */
  lemma {:induction false} MissingReports(spans: seq<FunctionSpan>, covered: set<string>)
    ensures Folded(Missing(spans, covered)) == FoldedNames(spans) - covered
    decreases |spans|
  {
    hide Lower;
    if spans != [] {
      var front, span := spans[..|spans| - 1], spans[|spans| - 1];
      MissingReports(front, covered);
      assert forall k :: 0 <= k < |front| ==> front[k] == spans[k];
      assert FoldedNames(spans) == FoldedNames(front) + {Lower(span.name)};
      var all := Missing(spans, covered);
      if all != Missing(front, covered) {
        assert all[..|all| - 1] == Missing(front, covered);
        FoldedStep(all);
      }
    }
  }

  lemma {:induction false} MissingAreSpans(spans: seq<FunctionSpan>, covered: set<string>, m: nat) returns (k: nat)
    requires m < |Missing(spans, covered)|
    ensures k < |spans| && spans[k].name == Missing(spans, covered)[m]
    decreases |spans|
  {
    hide Lower;
    hide FoldedNames;
    var front := spans[..|spans| - 1];
    if m < |Missing(front, covered)| {
      k := MissingAreSpans(front, covered, m);
    } else {
      k := |front|;
    }
  }

  // ---- What a scan requests ----

  function NameRequests(rel: string, names: seq<string>): seq<Request> {
    seq(|names|, i requires 0 <= i < |names| => Request(rel, Some(names[i])))
  }

  function TargetRequests(c: Checkout, rel: string): seq<Request> {
    var tests := Tests(c, rel);
    if tests == [] then [Request(rel, None)]
    else
      match SourceOf(c, rel)
      case Spans(spans) => NameRequests(rel, Missing(spans, CoveredNames(tests)))
      case _ => []
  }

  function ScanRequests(c: Checkout, rels: seq<string>): seq<Request> {
    if rels == [] then []
    else ScanRequests(c, rels[..|rels| - 1]) + TargetRequests(c, rels[|rels| - 1])
  }

  /** The target list of a product, normalised; nothing if one of them is refused. */
  function Targets(files: seq<string>): Option<seq<string>> {
    if files == [] then Some([])
    else
      var front, last := Targets(files[..|files| - 1]), files[|files| - 1];
      if front.None? then None
      else if last == "" then front
      else if Normalize(last).None? then None
      else Some(front.value + [Normalize(last).value])
  }

  method NormalizeTargets(files: seq<string>) returns (rels: Option<seq<string>>)
    ensures rels == Targets(files)
  {
    hide Normalize;
    rels := Some([]);
    for k := 0 to |files|
      invariant rels.Some? && rels == Targets(files[..k])
    {
      assert files[..k + 1][..k] == files[..k];
      if files[k] != "" {
        var rel := NormalizeRelPath(files[k]);
        if rel.None? {
          TargetsFail(files, k + 1);
          return None;
        }
        rels := Some(rels.value + [rel.value]);
      }
    }
    assert files[..|files|] == files;
  }

  lemma {:induction false} TargetsFail(files: seq<string>, k: nat)
    requires k <= |files| && Targets(files[..k]).None?
    ensures Targets(files).None?
    decreases |files|
  {
    hide Normalize;
    if k < |files| {
      assert files[..|files| - 1][..k] == files[..k];
      TargetsFail(files[..|files| - 1], k);
    } else {
      assert files[..k] == files;
    }
  }

  lemma {:induction false} TargetsHaveAll(files: seq<string>, k: nat)
    requires Targets(files).Some? && k < |files| && files[k] != ""
    ensures Normalize(files[k]).Some? && Normalize(files[k]).value in Targets(files).value
    decreases |files|
  {
    hide Normalize;
    if k < |files| - 1 {
      TargetsHaveAll(files[..|files| - 1], k);
    }
  }

  // ---- run_scan_job ----

  /** One request for each name; they all fail, or none does. */
  method EnqueueNames(session: Session, ctx: EnqueueContext, p: nat, rel: string, names: seq<string>, now: Time,
      was: nat, wasSkipped: nat) returns (ok: bool, created: nat, skipped: nat)
    requires session.Clean()
    modifies session, ctx
    ensures session.Clean()
    ensures ok <==> Readable(NameRequests(rel, names))
    ensures ok ==> Work(session.View(), ctx.pending, created, skipped) ==
                     EnqueueAll(Work(old(session.View()), old(ctx.pending), was, wasSkipped), p, ctx.cdb,
                                NameRequests(rel, names), now)
    ensures !ok ==> session.View() == old(session.View()) && ctx.pending == old(ctx.pending)
  {
    hide Normalize;
    hide Enqueued;
    created, skipped := was, wasSkipped;
    ghost var rs := NameRequests(rel, names);
    ghost var w := Work(session.View(), ctx.pending, created, skipped);
    EnqueueNothing(w, p, ctx.cdb, now);
    assert rs[..0] == [];
    hide EnqueueAll;
    for k := 0 to |names|
      invariant session.Clean() && Readable(rs[..k])
      invariant k > 0 ==> Normalize(rel).Some?
      invariant k == 0 ==> session.View() == w.db && ctx.pending == w.pending
      invariant Work(session.View(), ctx.pending, created, skipped) == EnqueueAll(w, p, ctx.cdb, rs[..k], now)
    {
      ghost var v := Work(session.View(), ctx.pending, created, skipped);
      ghost var next := rs[..k + 1];
      assert next[..k] == rs[..k] && next[k] == Request(rel, Some(names[k]));
      var result := EnqueueGenutJob(session, ctx, p, Request(rel, Some(names[k])), now);
      if result.BadPath? {
        return false, created, skipped;
      }
      CountsAdd(v, p, ctx.cdb, Request(rel, Some(names[k])), now);
      created := created + (if result.Created? then 1 else 0);
      skipped := skipped + (if result.Created? then 0 else 1);
      EnqueueSnoc(w, p, ctx.cdb, next, now);
    }
    assert rs[..|rs|] == rs;
    ok := true;
  }

  datatype TargetResult = Handled(warned: bool) | TargetCrashed

  /** Whether the target ends the whole scan with an error. */
  predicate Crashes(c: Checkout, rel: string) {
    (Tests(c, rel) != [] && SourceOf(c, rel).ExtractorFailed?) || !Readable(TargetRequests(c, rel))
  }

  predicate Warns(c: Checkout, rel: string) {
    && Tests(c, rel) != [] && !SourceOf(c, rel).ExtractorFailed?
    && (SourceOf(c, rel).Spans? ==> SourceOf(c, rel).spans == [])
  }

  method ScanTarget(session: Session, ctx: EnqueueContext, p: nat, c: Checkout, rel: string, now: Time, was: nat,
      wasSkipped: nat) returns (result: TargetResult, created: nat, skipped: nat)
    requires session.Clean()
    modifies session, ctx
    ensures session.Clean() && (result.TargetCrashed? <==> Crashes(c, rel))
    ensures result.Handled? ==> (result.warned <==> Warns(c, rel))
    ensures result.Handled? ==>
              Work(session.View(), ctx.pending, created, skipped) ==
              EnqueueAll(Work(old(session.View()), old(ctx.pending), was, wasSkipped), p, ctx.cdb,
                         TargetRequests(c, rel), now)
    ensures result.TargetCrashed? ==> session.View() == old(session.View()) && ctx.pending == old(ctx.pending)
  {
    hide Normalize;
    hide Enqueued;
    hide Stem;
    hide Missing;
    hide CoveredNames;
    created, skipped := was, wasSkipped;
    var existing := Tests(c, rel);
    if existing == [] {
      ghost var w := Work(session.View(), ctx.pending, created, skipped);
      var request := EnqueueGenutJob(session, ctx, p, Request(rel, None), now);
      if request.BadPath? {
        assert TargetRequests(c, rel)[0].file == rel;
        return TargetCrashed, created, skipped;
      }
      created := created + (if request.Created? then 1 else 0);
      skipped := skipped + (if request.Created? then 0 else 1);
      CountsAdd(w, p, ctx.cdb, Request(rel, None), now);
      EnqueueAll1(w, p, ctx.cdb, Request(rel, None), now);
      return Handled(false), created, skipped;
    }
    match SourceOf(c, rel)
    case NoFile => return Handled(true), created, skipped;
    case Unreadable => return Handled(true), created, skipped;
    case ExtractorFailed => return TargetCrashed, created, skipped;
    case Spans(spans) =>
      if spans == [] {
        NothingMissing(CoveredNames(existing));
        return Handled(true), created, skipped;
      }
      var covered := CoveredFunctions(existing);
      var missing := MissingFunctions(spans, covered);
      var ok;
      ok, created, skipped := EnqueueNames(session, ctx, p, rel, missing, now, was, wasSkipped);
      return if ok then Handled(false) else TargetCrashed, created, skipped;
  }

  lemma {:induction false} NothingMissing(covered: set<string>)
    ensures Missing([], covered) == []
  {
  }

  datatype ScanResult =
    | Scanned(files: nat, created: nat, skipped: nat, warned: nat)
    | ScanCanceled
    | ScanCrashed

  function Warnings(c: Checkout, rels: seq<string>): nat {
    if rels == [] then 0
    else Warnings(c, rels[..|rels| - 1]) + (if Warns(c, rels[|rels| - 1]) then 1 else 0)
  }

  /** `run_scan_job`. `rels` are the targets it got through, `start` is the index it began with. */
  method RunScanJob(session: Session, p: nat, cdb: CompileDb, files: seq<string>, c: Checkout,
      shouldCancel: nat -> bool, now: Time)
      returns (result: ScanResult, ghost start: Pending, ghost rels: seq<string>)
    requires session.Clean()
    modifies session
    ensures session.Clean() && Readable(ScanRequests(c, rels))
    ensures rels != [] ==> Agrees(old(session.View()), p, start) && Targets(files).Some? && rels <= Targets(files).value
    ensures session.View() == EnqueueAll(Work(old(session.View()), start, 0, 0), p, cdb, ScanRequests(c, rels), now).db
    ensures result.Scanned? ==>
              var t := EnqueueAll(Work(old(session.View()), start, 0, 0), p, cdb, ScanRequests(c, rels), now);
              && Targets(files) == Some(rels)
              && result == Scanned(|rels|, t.created, t.skipped, Warnings(c, rels))
              && forall i :: 0 <= i < |rels| ==> !shouldCancel(i) && !Crashes(c, rels[i])
    ensures result.ScanCanceled? ==> Targets(files).Some? && |rels| < |Targets(files).value| && shouldCancel(|rels|)
    ensures result.ScanCrashed? ==>
              || Targets(files).None? || !Indexable(old(session.View()), p)
              || (|rels| < |Targets(files).value| && Crashes(c, Targets(files).value[|rels|]))
  {
    hide Normalize;
    hide Targets;
    hide Crashes;
    hide Warns;
    hide TargetRequests;
    hide ScanRequests;
    hide Warnings;
    hide EnqueueAll;
    hide Agrees;
    ghost var s := session.View();
    start, rels := map[], [];
    NothingScanned(c, Work(s, start, 0, 0), p, cdb, now);
    var targets := NormalizeTargets(files);
    if targets.None? {
      return ScanCrashed, start, rels;
    }
    if targets.value == [] {
      return Scanned(0, 0, 0, 0), start, rels;
    }
    var ctx := new EnqueueContext(cdb);
    var ok := ctx.IndexJobs(session.View(), p);
    if !ok {
      return ScanCrashed, start, rels;
    }
    start := ctx.pending;
    var created, skipped, warned := 0, 0, 0;
    ghost var w := Work(s, start, 0, 0);
    NothingScanned(c, w, p, cdb, now);
    for i := 0 to |targets.value|
      invariant session.Clean() && fresh(ctx) && ctx.cdb == cdb
      invariant rels == targets.value[..i] && Readable(ScanRequests(c, rels))
      invariant Work(session.View(), ctx.pending, created, skipped) == EnqueueAll(w, p, cdb, ScanRequests(c, rels), now)
      invariant warned == Warnings(c, rels)
      invariant forall k :: 0 <= k < i ==> !shouldCancel(k) && !Crashes(c, rels[k])
    {
      if shouldCancel(i) {
        return ScanCanceled, start, rels;
      }
      var target;
      ghost var v := Work(session.View(), ctx.pending, created, skipped);
      target, created, skipped := ScanTarget(session, ctx, p, c, targets.value[i], now, created, skipped);
      if target.TargetCrashed? {
        return ScanCrashed, start, rels;
      }
      OneMoreScanned(c, w, p, cdb, targets.value, i, now);
      rels := targets.value[..i + 1];
      warned := warned + (if target.warned then 1 else 0);
    }
    assert targets.value[..|targets.value|] == targets.value;
    return Scanned(|targets.value|, created, skipped, warned), start, rels;
  }

  lemma {:induction false} NothingScanned(c: Checkout, w: Work, p: nat, cdb: CompileDb, now: Time)
    ensures ScanRequests(c, []) == [] && Warnings(c, []) == 0 && EnqueueAll(w, p, cdb, [], now) == w
  {
  }

  lemma {:induction false} OneMoreScanned(c: Checkout, w: Work, p: nat, cdb: CompileDb, rels: seq<string>, i: nat,
      now: Time)
    requires i < |rels| && !Crashes(c, rels[i]) && Readable(ScanRequests(c, rels[..i]))
    ensures Readable(TargetRequests(c, rels[i])) && Readable(ScanRequests(c, rels[..i + 1]))
    ensures EnqueueAll(w, p, cdb, ScanRequests(c, rels[..i + 1]), now) ==
            EnqueueAll(EnqueueAll(w, p, cdb, ScanRequests(c, rels[..i]), now), p, cdb, TargetRequests(c, rels[i]), now)
    ensures Warnings(c, rels[..i + 1]) == Warnings(c, rels[..i]) + (if Warns(c, rels[i]) then 1 else 0)
  {
    hide Enqueued;
    hide EnqueueAll;
    hide TargetRequests;
    hide Warns;
    assert rels[..i + 1][..i] == rels[..i];
    EnqueueConcat(w, p, cdb, ScanRequests(c, rels[..i]), TargetRequests(c, rels[i]), now);
  }

  // ---- What a whole scan achieves ----

  lemma {:induction false} RequestIsMade(c: Checkout, rels: seq<string>, i: nat, m: nat) returns (k: nat)
    requires i < |rels| && m < |TargetRequests(c, rels[i])|
    ensures k < |ScanRequests(c, rels)| && ScanRequests(c, rels)[k] == TargetRequests(c, rels[i])[m]
    decreases |rels|
  {
    hide TargetRequests;
    var front := rels[..|rels| - 1];
    if i < |front| {
      k := RequestIsMade(c, front, i, m);
    } else {
      k := |ScanRequests(c, front)| + m;
    }
  }

  lemma {:induction false} RequestComesFrom(c: Checkout, rels: seq<string>, k: nat) returns (i: nat, m: nat)
    requires k < |ScanRequests(c, rels)|
    ensures i < |rels| && m < |TargetRequests(c, rels[i])|
    ensures ScanRequests(c, rels)[k] == TargetRequests(c, rels[i])[m]
    decreases |rels|
  {
    hide TargetRequests;
    var front := rels[..|rels| - 1];
    if k < |ScanRequests(c, front)| {
      i, m := RequestComesFrom(c, front, k);
    } else {
      i, m := |front|, k - |ScanRequests(c, front)|;
    }
  }

  /** The extractors never give a function without a name. */
  predicate AllNamed(c: Checkout) {
    forall rel :: rel in c.sources && c.sources[rel].Spans? ==>
      forall k :: 0 <= k < |c.sources[rel].spans| ==> c.sources[rel].spans[k].name != ""
  }

  lemma {:induction false} ScanNamesAreNotEmpty(c: Checkout, rels: seq<string>)
    requires AllNamed(c)
    ensures forall k :: 0 <= k < |ScanRequests(c, rels)| ==> ScanRequests(c, rels)[k].function_ != Some("")
  {
    hide Missing;
    hide CoveredNames;
    hide Stem;
    forall k | 0 <= k < |ScanRequests(c, rels)| ensures ScanRequests(c, rels)[k].function_ != Some("") {
      var i, m := RequestComesFrom(c, rels, k);
      if Tests(c, rels[i]) != [] {
        var n := MissingAreSpans(SourceOf(c, rels[i]).spans, CoveredNames(Tests(c, rels[i])), m);
      }
    }
  }

  lemma NamesAreNamed(c: Checkout, rel: string, k: nat)
    requires AllNamed(c) && SourceOf(c, rel).Spans? && k < |SourceOf(c, rel).spans|
    ensures SourceOf(c, rel).spans[k].name != ""
  {
  }

  /** A pending job does for some span of that case-folded name. */
  ghost predicate NameAnswered(db: Db, p: nat, rel: string, spans: seq<FunctionSpan>, low: string) {
    exists m :: 0 <= m < |spans| && Lower(spans[m].name) == low && Answered(db, p, rel, Some(spans[m].name))
  }

  /** What a scan owes the target `rel`: a job for the whole file if no test is listed for it, and
      otherwise one for each function without a test. Requests are for the path as normalised once more. */
  ghost predicate TargetServed(db: Db, p: nat, c: Checkout, rel: string)
    requires Normalize(rel).Some?
  {
    var file := Normalize(rel).value;
    && ((forall test :: !Listed(c, rel, test)) ==> Answered(db, p, file, None))
    && ((exists test :: Listed(c, rel, test)) && SourceOf(c, rel).Spans? ==>
          forall k :: 0 <= k < |SourceOf(c, rel).spans| && !HasTest(c, rel, SourceOf(c, rel).spans[k].name) ==>
            NameAnswered(db, p, file, SourceOf(c, rel).spans, Lower(SourceOf(c, rel).spans[k].name)))
  }

  lemma {:induction false} ScannedIsServed(w: Work, p: nat, cdb: CompileDb, c: Checkout, rels: seq<string>, now: Time,
      i: nat)
    requires IdsFresh(w.db) && SoundAsSpelled(w.db, p, w.pending) && AllNamed(c)
    requires Readable(ScanRequests(c, rels))
    requires i < |rels| && Normalize(rels[i]).Some? && InCompileDb(cdb, Normalize(rels[i]).value)
    ensures TargetServed(EnqueueAll(w, p, cdb, ScanRequests(c, rels), now).db, p, c, rels[i])
  {
    hide Normalize;
    hide InCompileDb;
    hide SoundAsSpelled;
    hide AllNamed;
    hide EnqueueAll;
    hide ScanRequests;
    hide Answered;
    hide Missing;
    hide CoveredNames;
    hide Stem;
    hide Lower;
    var rel := rels[i];
    var t := EnqueueAll(w, p, cdb, ScanRequests(c, rels), now).db;
    ScanNamesAreNotEmpty(c, rels);
    TestsAreListed(c, rel);
    hide Listed;
    hide HasTest;
    if Tests(c, rel) == [] {
      var k := RequestIsMade(c, rels, i, 0);
      AllAreAnswered(w, p, cdb, ScanRequests(c, rels), now, k);
    } else if SourceOf(c, rel).Spans? {
      var spans := SourceOf(c, rel).spans;
      var missing := Missing(spans, CoveredNames(Tests(c, rel)));
      MissingReports(spans, CoveredNames(Tests(c, rel)));
      forall n | 0 <= n < |spans| && !HasTest(c, rel, spans[n].name)
        ensures NameAnswered(t, p, Normalize(rel).value, spans, Lower(spans[n].name))
      {
        var low := Lower(spans[n].name);
        NamesAreNamed(c, rel, n);
        CoveredHasTest(c, rel, spans[n].name);
        assert low in FoldedNames(spans);
        assert low in Folded(missing);
        var m :| 0 <= m < |missing| && Lower(missing[m]) == low;
        var q := MissingAreSpans(spans, CoveredNames(Tests(c, rel)), m);
        var k := RequestIsMade(c, rels, i, m);
        AllAreAnswered(w, p, cdb, ScanRequests(c, rels), now, k);
      }
    }
  }

  /** A target of the compile database that has no test gets a job for the whole file; if it has
      some, every function without a test, whatever its case, gets one. */
  lemma {:induction false} ScanIsComplete(db: Db, p: nat, start: Pending, cdb: CompileDb, c: Checkout,
      files: seq<string>, n: nat, now: Time)
    requires IdsFresh(db) && Agrees(db, p, start) && AllNamed(c) && Targets(files).Some?
    requires Readable(ScanRequests(c, Targets(files).value))
    requires n < |files| && files[n] != "" && Normalize(files[n]).Some?
    requires var rel := Normalize(files[n]).value; Normalize(rel).Some? && InCompileDb(cdb, Normalize(rel).value)
    ensures TargetServed(EnqueueAll(Work(db, start, 0, 0), p, cdb, ScanRequests(c, Targets(files).value), now).db, p, c,
                         Normalize(files[n]).value)
  {
    var rels := Targets(files).value;
    TargetsHaveAll(files, n);
    AgreementIsSound(db, p, start);
    hide *;
    var i :| 0 <= i < |rels| && rels[i] == Normalize(files[n]).value;
    ScannedIsServed(Work(db, start, 0, 0), p, cdb, c, rels, now, i);
  }

  /** Why a scan queues a job: the target has no test at all, or the function has none. */
  ghost predicate Justified(c: Checkout, cdb: CompileDb, rel: string, job: Job) {
    && Normalize(rel).Some? && job.files == [Normalize(rel).value]
    && (Normalize(rel).value in cdb.rels || Name(Normalize(rel).value) in cdb.bases)
    && match job.function_
       case None => forall test :: !Listed(c, rel, test)
       case Some(name) =>
         && (exists test :: Listed(c, rel, test)) && SourceOf(c, rel).Spans? && !HasTest(c, rel, name)
         && exists k :: 0 <= k < |SourceOf(c, rel).spans| && SourceOf(c, rel).spans[k].name == name
  }

  /** Every job a scan queues is an automatic GENUT job for one of its targets, and is justified. */
  lemma ScanIsSound(w: Work, p: nat, cdb: CompileDb, c: Checkout, rels: seq<string>, now: Time, j: nat) returns (i: nat)
    requires IdsFresh(w.db) && AllNamed(c) && Readable(ScanRequests(c, rels))
    requires j in EnqueueAll(w, p, cdb, ScanRequests(c, rels), now).db.jobs && j !in w.db.jobs
    ensures i < |rels|
    ensures var job := EnqueueAll(w, p, cdb, ScanRequests(c, rels), now).db.jobs[j];
            && job.product == p && job.kind == Genut && job.origin == Auto && job.status == Queued
            && Justified(c, cdb, rels[i], job)
  {
    hide Normalize;
    hide EnqueueAll;
    hide ScanRequests;
    hide Name;
    hide Stem;
    hide Missing;
    hide CoveredNames;
    hide Lower;
    var m;
    var k := NewJobsWereRequested(w, p, cdb, ScanRequests(c, rels), now, j);
    ScanNamesAreNotEmpty(c, rels);
    i, m := RequestComesFrom(c, rels, k);
    TestsAreListed(c, rels[i]);
    hide Listed;
    hide HasTest;
    if Tests(c, rels[i]) != [] {
      CoveredHasTest(c, rels[i], ScanRequests(c, rels)[k].function_.value);
      var spans, covered := SourceOf(c, rels[i]).spans, CoveredNames(Tests(c, rels[i]));
      MissingReports(spans, covered);
      var n := MissingAreSpans(spans, covered, m);
      assert Lower(Missing(spans, covered)[m]) in Folded(Missing(spans, covered));
    }
  }

  lemma {:induction false} RequestIsForTarget(c: Checkout, rel: string, m: nat)
    requires m < |TargetRequests(c, rel)|
    ensures TargetRequests(c, rel)[m].file == rel
  {
    hide Missing;
    hide CoveredNames;
    hide Stem;
  }

  /** No target is normalised to a path that is spelled differently but read back as `rel`; targets
      without outer blanks never are. */
  predicate ReadBackAlike(rels: seq<string>, rel: string) {
    forall k :: 0 <= k < |rels| && Normalize(rels[k]).Some? && Normalize(Normalize(rels[k]).value) == Some(rel) ==>
      Normalize(rels[k]).value == rel
  }

  lemma {:induction false} ScanIsAlike(c: Checkout, rels: seq<string>, rel: string)
    requires Readable(ScanRequests(c, rels)) && ReadBackAlike(rels, rel)
    ensures SpelledAlike(ScanRequests(c, rels), rel)
  {
    hide Normalize;
    hide ScanRequests;
    hide TargetRequests;
    var rs := ScanRequests(c, rels);
    forall k | 0 <= k < |rs| && Normalize(Rel(rs[k])) == Some(rel) ensures Rel(rs[k]) == rel {
      var n, m := RequestComesFrom(c, rels, k);
      RequestIsForTarget(c, rels[n], m);
    }
  }

  /** A scan makes no duplicates: no job it queues for a file is for what an older pending job does
      already. */
  lemma {:induction false} ScanMakesNoDuplicates(db: Db, p: nat, start: Pending, cdb: CompileDb, c: Checkout,
      files: seq<string>, now: Time, rel: string, i: nat, j: nat)
    requires IdsFresh(db) && Agrees(db, p, start) && AllNamed(c) && Targets(files).Some?
    requires Readable(ScanRequests(c, Targets(files).value)) && ReadBackAlike(Targets(files).value, rel)
    ensures var t := EnqueueAll(Work(db, start, 0, 0), p, cdb, ScanRequests(c, Targets(files).value), now).db;
            j in t.jobs && j !in db.jobs && t.jobs[j].files == [rel] && i < j && IsPending(t, p, i) ==>
              !Serves(t.jobs[i], rel, t.jobs[j].function_)
  {
    ScanIsAlike(c, Targets(files).value, rel);
    ScanNamesAreNotEmpty(c, Targets(files).value);
    AgreementIsComplete(db, p, start, rel);
    hide *;
    var rs := ScanRequests(c, Targets(files).value);
    var t := EnqueueAll(Work(db, start, 0, 0), p, cdb, rs, now).db;
    if j in t.jobs && j !in db.jobs && t.jobs[j].files == [rel] && i < j && IsPending(t, p, i) {
      NoDuplicates(Work(db, start, 0, 0), p, cdb, rs, now, rel, i, j);
    }
  }

  lemma {:induction false} TargetsAreNormal(files: seq<string>)
    requires Targets(files).Some?
    ensures forall k :: 0 <= k < |Targets(files).value| && Trimmed(Targets(files).value[k]) ==>
              Normalize(Targets(files).value[k]) == Some(Targets(files).value[k])
    decreases |files|
  {
    hide Normalize;
    hide Trimmed;
    if files != [] {
      TargetsAreNormal(files[..|files| - 1]);
      var last := files[|files| - 1];
      if last != "" {
        NormalFormIsStable(last);
      }
    }
  }

  /** Targets without outer blanks are read back as they are spelled. */
  lemma {:induction false} TrimmedTargetsAreAlike(files: seq<string>, rel: string)
    requires Targets(files).Some? && forall r :: r in Targets(files).value ==> Trimmed(r)
    ensures ReadBackAlike(Targets(files).value, rel)
  {
    TargetsAreNormal(files);
    hide Normalize;
    hide Targets;
    hide Trimmed;
    assert forall k :: 0 <= k < |Targets(files).value| ==> Targets(files).value[k] in Targets(files).value;
  }

  // ---- Exactly which jobs a target gets ----

  /** A new job is for the function, or for the whole file if there is no name. */
  ghost predicate Adds(s: Db, t: Db, function_: Option<string>) {
    exists j :: j in t.jobs && j !in s.jobs && t.jobs[j].function_ == function_
  }

  lemma {:induction false} TargetNamesAreNotEmpty(c: Checkout, rel: string)
    requires AllNamed(c)
    ensures forall m :: 0 <= m < |TargetRequests(c, rel)| ==> TargetRequests(c, rel)[m].function_ != Some("")
    ensures Tests(c, rel) != [] ==>
              forall m :: 0 <= m < |TargetRequests(c, rel)| ==> TargetRequests(c, rel)[m].function_.Some?
  {
    hide Missing;
    hide CoveredNames;
    hide Stem;
    forall m | 0 <= m < |TargetRequests(c, rel)| ensures TargetRequests(c, rel)[m].function_ != Some("") {
      if Tests(c, rel) != [] {
        var n := MissingAreSpans(SourceOf(c, rel).spans, CoveredNames(Tests(c, rel)), m);
      }
    }
  }

  /** A target gets a job for the whole file exactly when no test is listed for it, passed or failed, the
      compile database has it, and no job of the file is pending. */
  lemma {:induction false} FileJobExactly(w: Work, p: nat, cdb: CompileDb, c: Checkout, rel: string, now: Time)
    requires IdsFresh(w.db) && Agrees(w.db, p, w.pending) && AllNamed(c)
    requires Normalize(rel).Some? && Readable(TargetRequests(c, rel))
    ensures var file := Normalize(rel).value;
            Adds(w.db, EnqueueAll(w, p, cdb, TargetRequests(c, rel), now).db, None) <==>
              && (forall test :: !Listed(c, rel, test))
              && (file in cdb.rels || Name(file) in cdb.bases)
              && forall j :: !InTheWay(w.db, p, file, None, j)
  {
    TestsAreListed(c, rel);
    TargetNamesAreNotEmpty(c, rel);
    hide Normalize;
    hide Agrees;
    hide Stem;
    hide Name;
    hide Listed;
    hide InTheWay;
    hide Missing;
    hide CoveredNames;
    var rs := TargetRequests(c, rel);
    var t := EnqueueAll(w, p, cdb, rs, now).db;
    if Tests(c, rel) == [] {
      EnqueueAll1(w, p, cdb, rs[0], now);
      RequestCreatesExactly(w, p, cdb, rs[0], now);
      assert w.db.nextJob !in w.db.jobs;
      hide Enqueued;
      hide EnqueueAll;
      hide Tests;
    } else {
      hide EnqueueAll;
      hide TargetRequests;
      forall j | j in t.jobs && j !in w.db.jobs ensures t.jobs[j].function_.Some? {
        var k := NewJobsWereRequested(w, p, cdb, rs, now, j);
      }
    }
  }

  /** Among the requests for the functions of a file, the one for `n` comes at `m`, and none else is for it. */
  predicate OnlyAt(names: seq<string>, m: nat)
    requires m < |names|
  {
    (forall i :: 0 <= i < |names| && i != m ==> names[i] != names[m]) && "" !in names
  }

  /** Requests for other functions of the file do not matter to one for the function `n`. */
  lemma OtherNameDoesNotMatter(s: Work, p: nat, cdb: CompileDb, rel: string, o: string, n: string, now: Time, db: Db)
    requires Normalize(rel).Some? && o != n && o != "" && IdsFresh(s.db)
    requires forall j :: j in db.jobs ==> j < s.db.nextJob
    ensures var t, file := Enqueued(s, p, cdb, Request(rel, Some(o)), now), Normalize(rel).value;
            && (InIndex(t.pending, file, Some(n)) <==> InIndex(s.pending, file, Some(n)))
            && (Adds(db, t.db, Some(n)) <==> Adds(db, s.db, Some(n)))
  {
    hide Normalize;
    hide InCompileDb;
    var t := Enqueued(s, p, cdb, Request(rel, Some(o)), now);
    if Adds(db, s.db, Some(n)) {
      var j :| j in s.db.jobs && j !in db.jobs && s.db.jobs[j].function_ == Some(n);
      assert j in t.db.jobs && t.db.jobs[j].function_ == Some(n);
    }
  }

  lemma OwnNameAdds(s: Work, p: nat, cdb: CompileDb, rel: string, n: string, now: Time, db: Db)
    requires Normalize(rel).Some? && n != "" && IdsFresh(s.db) && !Adds(db, s.db, Some(n))
    requires forall j :: j in db.jobs ==> j < s.db.nextJob
    ensures Adds(db, Enqueued(s, p, cdb, Request(rel, Some(n)), now).db, Some(n)) <==>
            !Skips(s, cdb, Normalize(rel).value, Some(n))
  {
    hide Normalize;
    hide Skips;
    hide Noted;
    var t := Enqueued(s, p, cdb, Request(rel, Some(n)), now).db;
    if !Skips(s, cdb, Normalize(rel).value, Some(n)) {
      assert t.jobs[s.db.nextJob].function_ == Some(n);
    }
  }

  lemma {:induction false} NamesAreQueued(w: Work, p: nat, cdb: CompileDb, rel: string, names: seq<string>, now: Time,
      m: nat, k: nat)
    requires IdsFresh(w.db) && Normalize(rel).Some? && m < |names| && OnlyAt(names, m) && k <= |names|
    ensures Readable(NameRequests(rel, names)[..k])
    ensures var t, file := EnqueueAll(w, p, cdb, NameRequests(rel, names)[..k], now), Normalize(rel).value;
            if k <= m then
              (InIndex(t.pending, file, Some(names[m])) <==> InIndex(w.pending, file, Some(names[m])))
              && !Adds(w.db, t.db, Some(names[m]))
            else
              Adds(w.db, t.db, Some(names[m])) <==> !Skips(w, cdb, file, Some(names[m]))
    decreases k
  {
    hide Normalize;
    hide InIndex;
    hide Enqueued;
    hide InCompileDb;
    hide Adds;
    var rs := NameRequests(rel, names);
    if k == 0 {
      assert rs[..0] == [];
      EnqueueNothing(w, p, cdb, now);
      NothingAdds(w.db, Some(names[m]));
    } else {
      NamesAreQueued(w, p, cdb, rel, names, now, m, k - 1);
      assert rs[..k][..k - 1] == rs[..k - 1] && rs[..k][k - 1] == Request(rel, Some(names[k - 1]));
      var s := EnqueueAll(w, p, cdb, rs[..k - 1], now);
      EnqueueAdds(w, p, cdb, rs[..k - 1], now);
      EnqueueSnoc(w, p, cdb, rs[..k], now);
      assert names[k - 1] in names;
      if k - 1 == m {
        OwnNameAdds(s, p, cdb, rel, names[m], now, w.db);
      } else {
        OtherNameDoesNotMatter(s, p, cdb, rel, names[k - 1], names[m], now, w.db);
      }
    }
  }

  lemma NothingAdds(db: Db, function_: Option<string>)
    ensures !Adds(db, db, function_)
  {
  }

  /** No earlier function of the source has the name, whatever the case. */
  predicate FirstOfName(spans: seq<FunctionSpan>, n: nat)
    requires n < |spans|
  {
    forall i :: 0 <= i < n ==> Lower(spans[i].name) != Lower(spans[n].name)
  }

  lemma {:induction false} FirstIsMissing(spans: seq<FunctionSpan>, covered: set<string>, n: nat)
    requires n < |spans| && FirstOfName(spans, n)
    ensures Lower(spans[n].name) !in covered ==> spans[n].name in Missing(spans, covered)
    decreases |spans|
  {
    hide Lower;
    var front := spans[..|spans| - 1];
    if n < |front| {
      FirstIsMissing(front, covered, n);
    }
  }

  lemma {:induction false} MissingIsDistinct(spans: seq<FunctionSpan>, covered: set<string>)
    ensures forall i, k :: 0 <= i < k < |Missing(spans, covered)| ==>
              Lower(Missing(spans, covered)[i]) != Lower(Missing(spans, covered)[k])
    decreases |spans|
  {
    hide Lower;
    if spans != [] {
      var front := spans[..|spans| - 1];
      MissingIsDistinct(front, covered);
      MissingReports(front, covered);
      forall i | 0 <= i < |Missing(front, covered)| ensures Lower(Missing(front, covered)[i]) in FoldedNames(front) {
        assert Lower(Missing(front, covered)[i]) in Folded(Missing(front, covered));
      }
    }
  }

  lemma {:induction false} MissingIsOnly(spans: seq<FunctionSpan>, covered: set<string>, m: nat)
    requires m < |Missing(spans, covered)| && "" !in Missing(spans, covered)
    ensures OnlyAt(Missing(spans, covered), m)
  {
    MissingIsDistinct(spans, covered);
    hide Missing;
    hide Lower;
    var names := Missing(spans, covered);
    forall i | 0 <= i < |names| && i != m ensures names[i] != names[m] {
      assert Lower(names[i]) != Lower(names[m]);
    }
  }

  /** A function that comes first with its name gets a job exactly when some test is listed for the target,
      but none for it, the compile database has the file, and no pending job is in the way. */
  lemma {:induction false} FunctionJobExactly(w: Work, p: nat, cdb: CompileDb, c: Checkout, rel: string, now: Time,
      n: nat)
    requires IdsFresh(w.db) && Agrees(w.db, p, w.pending) && AllNamed(c)
    requires Normalize(rel).Some? && Readable(TargetRequests(c, rel))
    requires SourceOf(c, rel).Spans? && n < |SourceOf(c, rel).spans| && FirstOfName(SourceOf(c, rel).spans, n)
    ensures var file, name := Normalize(rel).value, SourceOf(c, rel).spans[n].name;
            Adds(w.db, EnqueueAll(w, p, cdb, TargetRequests(c, rel), now).db, Some(name)) <==>
              && (exists test :: Listed(c, rel, test)) && !HasTest(c, rel, name)
              && (file in cdb.rels || Name(file) in cdb.bases)
              && forall j :: !InTheWay(w.db, p, file, Some(name), j)
  {
    var spans, covered := SourceOf(c, rel).spans, CoveredNames(Tests(c, rel));
    var file, name := Normalize(rel).value, spans[n].name;
    var rs := TargetRequests(c, rel);
    TestsAreListed(c, rel);
    NamesAreNamed(c, rel, n);
    CoveredHasTest(c, rel, name);
    FirstIsMissing(spans, covered, n);
    MissingReports(spans, covered);
    TargetNamesAreNotEmpty(c, rel);
    IndexRefinesTable(w.db, p, w.pending, file, Some(name));
    CoveredIsInTheWay(w.db, p, file, Some(name));
    if name in Missing(spans, covered) && Tests(c, rel) != [] {
      var m :| 0 <= m < |Missing(spans, covered)| && Missing(spans, covered)[m] == name;
      hide *;
      QueuedAt(w, p, cdb, c, rel, now, m);
    } else {
      hide *;
      NotQueued(w, p, cdb, c, rel, now, name);
    }
  }

  lemma {:induction false} QueuedAt(w: Work, p: nat, cdb: CompileDb, c: Checkout, rel: string, now: Time, m: nat)
    requires IdsFresh(w.db) && AllNamed(c) && Normalize(rel).Some? && Tests(c, rel) != []
    requires SourceOf(c, rel).Spans? && Readable(TargetRequests(c, rel))
    requires m < |Missing(SourceOf(c, rel).spans, CoveredNames(Tests(c, rel)))|
    ensures var name := Missing(SourceOf(c, rel).spans, CoveredNames(Tests(c, rel)))[m];
            Adds(w.db, EnqueueAll(w, p, cdb, TargetRequests(c, rel), now).db, Some(name)) <==>
              !Skips(w, cdb, Normalize(rel).value, Some(name))
  {
    var spans, covered := SourceOf(c, rel).spans, CoveredNames(Tests(c, rel));
    var names := Missing(spans, covered);
    TargetNamesAreNotEmpty(c, rel);
    hide Missing;
    hide CoveredNames;
    hide Tests;
    hide AllNamed;
    hide Normalize;
    hide Adds;
    hide Skips;
    hide EnqueueAll;
    forall i | 0 <= i < |names| ensures names[i] != "" {
      assert TargetRequests(c, rel)[i].function_ == Some(names[i]);
    }
    MissingIsOnly(spans, covered, m);
    NamesAreQueued(w, p, cdb, rel, names, now, m, |names|);
    assert NameRequests(rel, names)[..|names|] == NameRequests(rel, names) == TargetRequests(c, rel);
  }

  lemma {:induction false} NotQueued(w: Work, p: nat, cdb: CompileDb, c: Checkout, rel: string, now: Time, name: string)
    requires IdsFresh(w.db) && AllNamed(c) && Readable(TargetRequests(c, rel)) && SourceOf(c, rel).Spans?
    requires Tests(c, rel) != [] ==> name !in Missing(SourceOf(c, rel).spans, CoveredNames(Tests(c, rel)))
    ensures !Adds(w.db, EnqueueAll(w, p, cdb, TargetRequests(c, rel), now).db, Some(name))
  {
    TargetNamesAreNotEmpty(c, rel);
    hide Missing;
    hide CoveredNames;
    hide Tests;
    hide AllNamed;
    hide Normalize;
    hide EnqueueAll;
    hide InCompileDb;
    var rs := TargetRequests(c, rel);
    var t := EnqueueAll(w, p, cdb, rs, now).db;
    forall j | j in t.jobs && j !in w.db.jobs ensures t.jobs[j].function_ != Some(name) {
      var k := NewJobsWereRequested(w, p, cdb, rs, now, j);
    }
  }

  // ---- Targets, warnings and failures ----

  /** Empty entries of the target list are passed over; one that is refused spoils the list, and otherwise
      the targets are the others, normalised. */
  lemma {:induction false} TargetsAre(files: seq<string>)
    ensures Targets(files).None? <==> exists k :: 0 <= k < |files| && files[k] != "" && Normalize(files[k]).None?
    ensures Targets(files).Some? ==>
              forall rel :: rel in Targets(files).value <==>
                exists k :: 0 <= k < |files| && files[k] != "" && Normalize(files[k]) == Some(rel)
    decreases |files|
  {
    hide Normalize;
    if files != [] {
      var front, last := files[..|files| - 1], files[|files| - 1];
      TargetsAre(front);
      assert forall k :: 0 <= k < |front| ==> front[k] == files[k];
      if Targets(front).None? {
        var k :| 0 <= k < |front| && front[k] != "" && Normalize(front[k]).None?;
        assert files[k] != "" && Normalize(files[k]).None?;
      } else if Targets(files).Some? {
        forall rel ensures rel in Targets(files).value <==>
                             exists k :: 0 <= k < |files| && files[k] != "" && Normalize(files[k]) == Some(rel) {
          if rel in Targets(front).value {
            var k :| 0 <= k < |front| && front[k] != "" && Normalize(front[k]) == Some(rel);
            assert files[k] != "" && Normalize(files[k]) == Some(rel);
          }
        }
      }
    }
  }

  /** A target ends the scan if it has a test and the extractor fails, or if a job is due for it but its path
      is refused; it is warned about if it has a test but no function was found in it, or no file. */
  lemma {:induction false} TargetFailsExactly(c: Checkout, rel: string)
    ensures Warns(c, rel) <==>
              && (exists test :: Listed(c, rel, test))
              && (rel in c.sources ==> c.sources[rel] in {NoFile, Unreadable, Spans([])})
    ensures Normalize(rel).Some? ==>
              (Crashes(c, rel) <==>
                 (exists test :: Listed(c, rel, test)) && rel in c.sources && c.sources[rel] == ExtractorFailed)
  {
    TestsAreListed(c, rel);
    hide Normalize;
    hide Stem;
    hide Missing;
    hide CoveredNames;
    hide Listed;
    if Normalize(rel).Some? {
      forall m | 0 <= m < |TargetRequests(c, rel)| ensures TargetRequests(c, rel)[m].file == rel {
        RequestIsForTarget(c, rel, m);
      }
    }
  }

  /** The number of warnings is the number of targets that are warned about. */
  lemma {:induction false} WarningsCount(c: Checkout, rels: seq<string>)
    ensures Warnings(c, rels) == |set i | 0 <= i < |rels| && Warns(c, rels[i])|
    decreases |rels|
  {
    hide Warns;
    var all := set i | 0 <= i < |rels| && Warns(c, rels[i]);
    if rels == [] {
      assert all == {};
    } else {
      var front, n := rels[..|rels| - 1], |rels| - 1;
      WarningsCount(c, front);
      var before := set i | 0 <= i < |front| && Warns(c, front[i]);
      assert forall i :: 0 <= i < |front| ==> front[i] == rels[i];
      assert all == before + if Warns(c, rels[n]) then {n} else {};
      assert n !in before;
    }
  }
}

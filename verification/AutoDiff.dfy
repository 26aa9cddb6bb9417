/** The diff job: which functions it requeues, and when the base commit moves. */
module AutoDiff {
  import opened Database
  import opened Paths
  import opened Enqueue
  import opened CParser
  import Masking
  import opened ChangeDetection
  import opened DiffText
  import opened Reading
  import opened Patched
  import opened AutoScan

  /** A line of `git diff --name-status`. */
  datatype Change = Change(status: string, path: string)

  /** What git and the extractor answer during one run: whether the checkout could be updated, the
      head, the changes since the base, and per path the diff and the functions. A missing answer
      is a failed command. */
  datatype Git = Git(
    updated: bool,
    head: Option<string>,
    changes: Option<seq<Change>>,
    diffs: map<string, string>,
    sources: map<string, Source>)

  function Functions(git: Git, rel: string): Source {
    if rel in git.sources then git.sources[rel] else NoFile
  }

  const WHOLE_FILE: seq<Range> := [(1, 0x8000_0000)]

  predicate Renamed(status: string) {
    status != "" && status[0] == 'R'
  }

  /** Renames with changes are taken as a change of every function. Pure renames, and files that
      were added or deleted, are left to the scan. */
  function Reported(git: Git, ch: Change, rel: string): seq<string> {
    if Renamed(ch.status) then
      if ch.status != "R100" && Functions(git, rel).Spans?
      then Overlapping(Functions(git, rel).spans, WHOLE_FILE)
      else []
    else if ch.status == "M" && rel in git.diffs && Functions(git, rel).Spans? then
      Overlapping(Functions(git, rel).spans, TextRanges(git.diffs[rel]))
    else []
  }

  function ChangeRequests(git: Git, targets: set<string>, ch: Change): seq<Request> {
    match Normalize(ch.path)
    case None => []
    case Some(rel) => if rel in targets then NameRequests(rel, Reported(git, ch, rel)) else []
  }

  /** The change ends the whole run with an error. */
  predicate ChangeCrashes(git: Git, targets: set<string>, ch: Change) {
    match Normalize(ch.path)
    case None => true
    case Some(rel) =>
      rel in targets &&
      (|| (Renamed(ch.status) && ch.status != "R100" && Functions(git, rel).ExtractorFailed?)
       || (ch.status == "M" && (rel !in git.diffs || Functions(git, rel).ExtractorFailed?))
       || !Readable(ChangeRequests(git, targets, ch)))
  }

  predicate Touches(targets: set<string>, ch: Change) {
    Normalize(ch.path).Some? && Normalize(ch.path).value in targets
  }

  function DiffRequests(git: Git, targets: set<string>, changes: seq<Change>): seq<Request> {
    if changes == [] then []
    else DiffRequests(git, targets, changes[..|changes| - 1]) + ChangeRequests(git, targets, changes[|changes| - 1])
  }

  function Touched(targets: set<string>, changes: seq<Change>): nat {
    if changes == [] then 0
    else Touched(targets, changes[..|changes| - 1]) + (if Touches(targets, changes[|changes| - 1]) then 1 else 0)
  }

  function TargetSet(files: seq<string>): set<string>
    requires Targets(files).Some?
  {
    set rel | rel in Targets(files).value
  }

  // ---- run_diff_job ----

  method DiffChange(session: Session, ctx: EnqueueContext, p: nat, git: Git, targets: set<string>, ch: Change,
      now: Time, was: nat, wasSkipped: nat) returns (ok: bool, touched: bool, created: nat, skipped: nat)
    requires session.Clean()
    modifies session, ctx
    ensures session.Clean() && (ok <==> !ChangeCrashes(git, targets, ch))
    ensures ok ==> (touched <==> Touches(targets, ch)) && Readable(ChangeRequests(git, targets, ch))
    ensures ok ==> Work(session.View(), ctx.pending, created, skipped) ==
                     EnqueueAll(Work(old(session.View()), old(ctx.pending), was, wasSkipped), p, ctx.cdb,
                                ChangeRequests(git, targets, ch), now)
    ensures !ok ==> session.View() == old(session.View()) && ctx.pending == old(ctx.pending)
  {
    hide Normalize;
    hide Enqueued;
    hide Overlapping;
    hide TextRanges;
    created, skipped, touched := was, wasSkipped, false;
    var norm := NormalizeRelPath(ch.path);
    if norm.None? {
      return false, touched, created, skipped;
    }
    var rel := norm.value;
    if rel !in targets {
      return true, touched, created, skipped;
    }
    touched := true;
    if Renamed(ch.status) {
      if ch.status == "R100" {
        return true, touched, created, skipped;
      }
      match Functions(git, rel)
      case ExtractorFailed =>
        return false, touched, created, skipped;
      case Spans(spans) =>
        var names := OverlappingFunctions(spans, WHOLE_FILE);
        ok, created, skipped := EnqueueNames(session, ctx, p, rel, names, now, created, skipped);
        return;
      case _ =>
        return true, touched, created, skipped;
    }
    if ch.status != "M" {
      return true, touched, created, skipped;
    }
    if rel !in git.diffs {
      return false, touched, created, skipped;
    }
    var ranges := DiffNewLineRanges(git.diffs[rel]);
    match Functions(git, rel)
    case ExtractorFailed =>
      return false, touched, created, skipped;
    case Spans(spans) =>
      var names := OverlappingFunctions(spans, ranges);
      ok, created, skipped := EnqueueNames(session, ctx, p, rel, names, now, created, skipped);
    case _ =>
      return true, touched, created, skipped;
  }

  datatype DiffResult =
    | FirstRun
    | NoChange
    | Rebased
    | Examined(touched: nat, created: nat, skipped: nat)
    | DiffCanceled
    | DiffCrashed
  {
    /** The outcomes after which the head becomes the base. */
    predicate MovesBase() {
      FirstRun? || Rebased? || Examined?
    }
  }

  function WithBase(db: Db, p: nat, commit: string): Db
    requires p in db.products
  {
    db.(products := db.products[p := db.products[p].(lastScanned := Some(commit))])
  }

  /** The run came so far as to look at changes. */
  predicate Examines(db: Db, p: nat, git: Git)
    requires p in db.products
  {
    && git.updated && git.head.Some? && db.products[p].lastScanned.Some?
    && db.products[p].lastScanned != git.head && git.changes.Some?
  }

  /** How a run ends that examines no changes. */
  function EarlyResult(db: Db, p: nat, git: Git): DiffResult
    requires p in db.products && !Examines(db, p, git)
  {
    if !git.updated || git.head.None? then DiffCrashed
    else if db.products[p].lastScanned.None? then FirstRun
    else if db.products[p].lastScanned == git.head then NoChange
    else Rebased
  }

  method SetBase(session: Session, p: nat, commit: string)
    requires p in session.products
    modifies session
    ensures session.Clean() && session.View() == WithBase(old(session.View()), p, commit)
  {
    session.products := session.products[p := session.products[p].(lastScanned := Some(commit))];
    session.Commit();
  }

  /** The index agreed with the table at the start, and the jobs requested for the changes in
      `seen` are queued; with the last change examined, the base has moved. */
  ghost predicate ExaminedTo(s: Db, p: nat, cdb: CompileDb, files: seq<string>, git: Git, now: Time, start: Pending,
      seen: seq<Change>, result: DiffResult, t: Db)
    requires p in s.products && Examines(s, p, git)
  {
    if Targets(files).None? || !Indexable(s, p) then seen == [] && t == s && result.DiffCrashed?
    else
      var rs := DiffRequests(git, TargetSet(files), seen);
      var w := Work(s, start, 0, 0);
      && Agrees(s, p, start) && seen <= git.changes.value && Readable(rs)
      && (forall i :: 0 <= i < |seen| ==> !ChangeCrashes(git, TargetSet(files), seen[i]))
      && match result
         case Examined(touched, created, skipped) =>
           && seen == git.changes.value && touched == Touched(TargetSet(files), seen)
           && created == EnqueueAll(w, p, cdb, rs, now).created && skipped == EnqueueAll(w, p, cdb, rs, now).skipped
           && t == WithBase(EnqueueAll(w, p, cdb, rs, now).db, p, git.head.value)
         case DiffCanceled =>
           |seen| < |git.changes.value| && t == EnqueueAll(w, p, cdb, rs, now).db
         case DiffCrashed =>
           && |seen| < |git.changes.value| && ChangeCrashes(git, TargetSet(files), git.changes.value[|seen|])
           && t == EnqueueAll(w, p, cdb, rs, now).db
         case _ => false
  }

  /** A whole run of the diff job, from the tables `s` to the tables `t`. */
  ghost predicate DiffRun(s: Db, p: nat, cdb: CompileDb, files: seq<string>, git: Git, now: Time, start: Pending,
      seen: seq<Change>, result: DiffResult, t: Db)
    requires p in s.products
  {
    if Examines(s, p, git) then ExaminedTo(s, p, cdb, files, git, now, start, seen, result, t)
    else
      && result == EarlyResult(s, p, git)
      && t == if result.MovesBase() then WithBase(s, p, git.head.value) else s
  }

  /** `run_diff_job`. `seen` are the changes it got through, `start` is the index it began with. */
  method RunDiffJob(session: Session, p: nat, cdb: CompileDb, files: seq<string>, git: Git, shouldCancel: nat -> bool,
      now: Time) returns (result: DiffResult, ghost start: Pending, ghost seen: seq<Change>)
    requires session.Clean() && p in session.products
    modifies session
    ensures session.Clean()
    ensures DiffRun(old(session.View()), p, cdb, files, git, now, start, seen, result, session.View())
    ensures result.DiffCanceled? ==> shouldCancel(|seen|)
  {
    hide Agrees;
    hide Targets;
    hide ExaminedTo;
    start, seen := map[], [];
    if !git.updated || git.head.None? {
      return DiffCrashed, start, seen;
    }
    var base := session.products[p].lastScanned;
    if base.None? {
      SetBase(session, p, git.head.value);
      return FirstRun, start, seen;
    }
    if base.value == git.head.value {
      return NoChange, start, seen;
    }
    if git.changes.None? {
      SetBase(session, p, git.head.value);
      return Rebased, start, seen;
    }
    result, start, seen := ExamineChanges(session, p, cdb, files, git, shouldCancel, now);
  }

  method ExamineChanges(session: Session, p: nat, cdb: CompileDb, files: seq<string>, git: Git,
      shouldCancel: nat -> bool, now: Time)
      returns (result: DiffResult, ghost start: Pending, ghost seen: seq<Change>)
    requires session.Clean() && p in session.products && Examines(session.View(), p, git)
    modifies session
    ensures session.Clean()
    ensures ExaminedTo(old(session.View()), p, cdb, files, git, now, start, seen, result, session.View())
    ensures result.DiffCanceled? ==> shouldCancel(|seen|)
  {
    hide Normalize;
    hide Targets;
    hide ChangeCrashes;
    hide ChangeRequests;
    hide DiffRequests;
    hide Touched;
    hide Touches;
    hide EnqueueAll;
    hide Agrees;
    ghost var s := session.View();
    start, seen := map[], [];
    var rels := NormalizeTargets(files);
    if rels.None? {
      return DiffCrashed, start, seen;
    }
    var targets := set rel | rel in rels.value;
    var changes := git.changes.value;
    var ctx := new EnqueueContext(cdb);
    var ok := ctx.IndexJobs(session.View(), p);
    if !ok {
      return DiffCrashed, start, seen;
    }
    start := ctx.pending;
    var created, skipped, touched := 0, 0, 0;
    ghost var w := Work(s, start, 0, 0);
    NothingExamined(git, targets, w, p, cdb, now);
    for i := 0 to |changes|
      invariant session.Clean() && fresh(ctx) && ctx.cdb == cdb && p in session.products
      invariant seen == changes[..i] && Readable(DiffRequests(git, targets, seen))
      invariant Work(session.View(), ctx.pending, created, skipped) ==
                EnqueueAll(w, p, cdb, DiffRequests(git, targets, seen), now)
      invariant touched == Touched(targets, seen)
      invariant forall k :: 0 <= k < i ==> !ChangeCrashes(git, targets, seen[k])
    {
      if shouldCancel(i) {
        return DiffCanceled, start, seen;
      }
      var hit;
      ghost var v := Work(session.View(), ctx.pending, created, skipped);
      ok, hit, created, skipped := DiffChange(session, ctx, p, git, targets, changes[i], now, created, skipped);
      if !ok {
        return DiffCrashed, start, seen;
      }
      OneMoreExamined(git, targets, w, p, cdb, changes, i, now);
      seen := changes[..i + 1];
      touched := touched + (if hit then 1 else 0);
    }
    assert changes[..|changes|] == changes;
    SetBase(session, p, git.head.value);
    result := Examined(touched, created, skipped);
  }

  lemma {:induction false} NothingExamined(git: Git, targets: set<string>, w: Work, p: nat, cdb: CompileDb, now: Time)
    ensures DiffRequests(git, targets, []) == [] && Touched(targets, []) == 0 && EnqueueAll(w, p, cdb, [], now) == w
  {
  }

  lemma {:induction false} OneMoreExamined(git: Git, targets: set<string>, w: Work, p: nat, cdb: CompileDb,
      changes: seq<Change>, i: nat, now: Time)
    requires i < |changes| && Readable(DiffRequests(git, targets, changes[..i]))
    requires Readable(ChangeRequests(git, targets, changes[i]))
    ensures Readable(DiffRequests(git, targets, changes[..i + 1]))
    ensures var t := EnqueueAll(w, p, cdb, DiffRequests(git, targets, changes[..i]), now);
            EnqueueAll(w, p, cdb, DiffRequests(git, targets, changes[..i + 1]), now) ==
            EnqueueAll(t, p, cdb, ChangeRequests(git, targets, changes[i]), now)
    ensures Touched(targets, changes[..i + 1]) ==
            Touched(targets, changes[..i]) + (if Touches(targets, changes[i]) then 1 else 0)
  {
    hide EnqueueAll;
    hide ChangeRequests;
    hide Touches;
    assert changes[..i + 1][..i] == changes[..i];
    EnqueueConcat(w, p, cdb, DiffRequests(git, targets, changes[..i]), ChangeRequests(git, targets, changes[i]), now);
  }

  // ---- What a diff run achieves ----

  lemma {:induction false} ChangeIsRequested(git: Git, targets: set<string>, changes: seq<Change>, i: nat, m: nat)
      returns (k: nat)
    requires i < |changes| && m < |ChangeRequests(git, targets, changes[i])|
    ensures k < |DiffRequests(git, targets, changes)|
    ensures DiffRequests(git, targets, changes)[k] == ChangeRequests(git, targets, changes[i])[m]
    decreases |changes|
  {
    hide ChangeRequests;
    var front := changes[..|changes| - 1];
    if i < |front| {
      k := ChangeIsRequested(git, targets, front, i, m);
    } else {
      k := |DiffRequests(git, targets, front)| + m;
    }
  }

  lemma {:induction false} RequestOfChange(git: Git, targets: set<string>, changes: seq<Change>, k: nat)
      returns (i: nat, m: nat)
    requires k < |DiffRequests(git, targets, changes)|
    ensures i < |changes| && m < |ChangeRequests(git, targets, changes[i])|
    ensures DiffRequests(git, targets, changes)[k] == ChangeRequests(git, targets, changes[i])[m]
    decreases |changes|
  {
    hide ChangeRequests;
    var front := changes[..|changes| - 1];
    if k < |DiffRequests(git, targets, front)| {
      i, m := RequestOfChange(git, targets, front, k);
    } else {
      i, m := |front|, k - |DiffRequests(git, targets, front)|;
    }
  }

  predicate GitNamed(git: Git) {
    forall rel :: rel in git.sources && git.sources[rel].Spans? ==> Named(git.sources[rel].spans)
  }

  predicate Named(spans: seq<FunctionSpan>) {
    forall k :: 0 <= k < |spans| ==> spans[k].name != ""
  }

  lemma {:induction false} ReportedAreSpans(spans: seq<FunctionSpan>, ranges: seq<Range>)
    ensures forall m :: 0 <= m < |Overlapping(spans, ranges)| ==>
              exists k :: 0 <= k < |spans| && spans[k].name == Overlapping(spans, ranges)[m] && Hit(spans[k], ranges)
    decreases |spans|
  {
    hide Hit;
    hide HitNames;
    if spans == [] {
      assert Overlapping(spans, ranges) == [];
    } else {
      var front, span := spans[..|spans| - 1], spans[|spans| - 1];
      ReportedAreSpans(front, ranges);
      assert forall k :: 0 <= k < |front| ==> front[k] == spans[k];
      assert Overlapping(spans, ranges) == Overlapping(front, ranges)
             || (Hit(span, ranges) && Overlapping(spans, ranges) == Overlapping(front, ranges) + [span.name]);
    }
  }

  lemma {:induction false} DiffNamesAreNotEmpty(git: Git, targets: set<string>, changes: seq<Change>)
    requires GitNamed(git)
    ensures forall k :: 0 <= k < |DiffRequests(git, targets, changes)| ==>
              DiffRequests(git, targets, changes)[k].function_ != Some("")
  {
    hide Overlapping;
    hide TextRanges;
    hide Normalize;
    forall k | 0 <= k < |DiffRequests(git, targets, changes)|
      ensures DiffRequests(git, targets, changes)[k].function_ != Some("")
    {
      var i, m := RequestOfChange(git, targets, changes, k);
      var rel := Normalize(changes[i].path).value;
      ReportedAreSpans(Functions(git, rel).spans, WHOLE_FILE);
      if rel in git.diffs {
        ReportedAreSpans(Functions(git, rel).spans, TextRanges(git.diffs[rel]));
      }
    }
  }

  /** Every name reported for a change of a target in the compile database has a pending job. */
  lemma {:induction false} ReportedAreAnswered(w: Work, p: nat, cdb: CompileDb, git: Git, targets: set<string>,
      changes: seq<Change>, now: Time, i: nat, m: nat)
    requires IdsFresh(w.db) && SoundAsSpelled(w.db, p, w.pending) && GitNamed(git)
    requires Readable(DiffRequests(git, targets, changes)) && i < |changes|
    requires Normalize(changes[i].path).Some?
    requires var rel := Normalize(changes[i].path).value;
             && rel in targets && Normalize(rel).Some? && InCompileDb(cdb, Normalize(rel).value)
             && m < |Reported(git, changes[i], rel)|
    ensures var rel := Normalize(changes[i].path).value;
            Answered(EnqueueAll(w, p, cdb, DiffRequests(git, targets, changes), now).db, p, Normalize(rel).value,
                     Some(Reported(git, changes[i], rel)[m]))
  {
    hide Reported;
    hide Normalize;
    hide InCompileDb;
    hide SoundAsSpelled;
    hide EnqueueAll;
    hide DiffRequests;
    hide Answered;
    hide GitNamed;
    DiffNamesAreNotEmpty(git, targets, changes);
    var k := ChangeIsRequested(git, targets, changes, i, m);
    AllAreAnswered(w, p, cdb, DiffRequests(git, targets, changes), now, k);
  }

  /** The internal parser never reports an empty name. */
  lemma {:induction false} ScanIsNamed(m: string, i: nat, seg: nat)
    requires seg <= i <= |m|
    ensures forall k :: 0 <= k < |Scan(m, i, seg)| ==> Scan(m, i, seg)[k].name != ""
    decreases |m| - i
  {
    if i < |m| {
      AdvanceIsNamed(m, i, seg);
      hide Advance;
      var v := Advance(m, i, seg);
      ScanIsNamed(m, v.i, v.seg);
    }
  }

  lemma AdvanceIsNamed(m: string, i: nat, seg: nat)
    requires seg <= i < |m|
    ensures forall k :: 0 <= k < |Advance(m, i, seg).found| ==> Advance(m, i, seg).found[k].name != ""
  {
    hide Tail;
    hide SkipBalanced;
    if IsIdentStart(m[i]) {
      assert WordEnd(m, i) > i;
    }
  }

  /** No control word or operator is reported as a function. */
  lemma {:induction false} ScanIsNotReserved(m: string, i: nat, seg: nat)
    requires seg <= i <= |m|
    ensures forall k :: 0 <= k < |Scan(m, i, seg)| ==> !Reserved(Scan(m, i, seg)[k].name)
    decreases |m| - i
  {
    if i < |m| {
      AdvanceIsNotReserved(m, i, seg);
      hide Advance;
      hide Reserved;
      var v := Advance(m, i, seg);
      ScanIsNotReserved(m, v.i, v.seg);
    }
  }

  lemma AdvanceIsNotReserved(m: string, i: nat, seg: nat)
    requires seg <= i < |m|
    ensures forall k :: 0 <= k < |Advance(m, i, seg).found| ==> !Reserved(Advance(m, i, seg).found[k].name)
  {
    hide Tail;
    hide SkipBalanced;
    forall word | Reserved(word) ensures IsKeyword(word) {
      WordsExactly(word);
    }
    hide Reserved;
    hide IsKeyword;
  }

  lemma ExtractedAreNamed(text: string)
    ensures Named(ExtractedFromFile(text))
    ensures forall k :: 0 <= k < |ExtractedFromFile(text)| ==> !Reserved(ExtractedFromFile(text)[k].name)
  {
    ScanIsNamed(Masking.Masked(Universal(text)), 0, 0);
    ScanIsNotReserved(Masking.Masked(Universal(text)), 0, 0);
    hide Reserved;
  }

  /** The run examined all changes; `t` are the tables it left. */
  ghost predicate DiffDone(s: Db, p: nat, cdb: CompileDb, files: seq<string>, git: Git, now: Time, start: Pending,
      result: DiffResult, t: Db)
    requires p in s.products && Examines(s, p, git)
  {
    result.Examined? && ExaminedTo(s, p, cdb, files, git, now, start, git.changes.value, result, t)
  }

  /** Change `i` modifies the target `rel`, which is in the compile database. Requests for it are for the
      path as it is normalised once more, which is the same but for blanks at its ends. */
  predicate ModifiesTarget(cdb: CompileDb, files: seq<string>, git: Git, i: nat, rel: string)
    requires git.changes.Some?
  {
    && i < |git.changes.value| && Normalize(git.changes.value[i].path) == Some(rel)
    && Targets(files).Some? && rel in Targets(files).value
    && Normalize(rel).Some? && InCompileDb(cdb, Normalize(rel).value)
  }

  lemma {:induction false} ChangesAreAnswered(s: Db, p: nat, cdb: CompileDb, files: seq<string>, git: Git, now: Time,
      start: Pending, result: DiffResult, t: Db, i: nat, rel: string, m: nat)
    requires p in s.products && Examines(s, p, git) && DiffDone(s, p, cdb, files, git, now, start, result, t)
    requires IdsFresh(s) && GitNamed(git) && ModifiesTarget(cdb, files, git, i, rel)
    requires m < |Reported(git, git.changes.value[i], rel)|
    ensures Answered(t, p, Normalize(rel).value, Some(Reported(git, git.changes.value[i], rel)[m]))
  {
    hide Reported;
    hide Normalize;
    hide InCompileDb;
    hide Agrees;
    hide DiffRequests;
    hide EnqueueAll;
    hide GitNamed;
    hide Targets;
    AgreementIsSound(s, p, start);
    var w := Work(s, start, 0, 0);
    var rs := DiffRequests(git, TargetSet(files), git.changes.value);
    ReportedAreAnswered(w, p, cdb, git, TargetSet(files), git.changes.value, now, i, m);
    AnsweredStays(EnqueueAll(w, p, cdb, rs, now).db, t, p, Normalize(rel).value,
        Some(Reported(git, git.changes.value[i], rel)[m]));
  }

  /** A name reported for a change of a target is covered by a job for one of its functions. */
  lemma {:induction false} ReportedIsAnswered(s: Db, p: nat, cdb: CompileDb, files: seq<string>, git: Git, now: Time,
      start: Pending, result: DiffResult, t: Db, i: nat, rel: string, spans: seq<FunctionSpan>, ranges: seq<Range>,
      low: string)
    requires p in s.products && Examines(s, p, git) && DiffDone(s, p, cdb, files, git, now, start, result, t)
    requires IdsFresh(s) && GitNamed(git) && ModifiesTarget(cdb, files, git, i, rel)
    requires Functions(git, rel) == Spans(spans)
    requires Reported(git, git.changes.value[i], rel) == Overlapping(spans, ranges)
    requires low in Folded(Overlapping(spans, ranges))
    ensures NameAnswered(t, p, Normalize(rel).value, spans, low)
  {
    var names := Overlapping(spans, ranges);
    hide Lower;
    hide Reported;
    hide Overlapping;
    ReportedAreSpans(spans, ranges);
    var m :| 0 <= m < |names| && Lower(names[m]) == low;
    ChangesAreAnswered(s, p, cdb, files, git, now, start, result, t, i, rel, m);
    hide *;
    var k :| 0 <= k < |spans| && spans[k].name == names[m];
    IsNameAnswered(t, p, Normalize(rel).value, spans, low, k);
  }

  lemma IsNameAnswered(db: Db, p: nat, rel: string, spans: seq<FunctionSpan>, low: string, k: nat)
    requires k < |spans| && Lower(spans[k].name) == low && Answered(db, p, rel, Some(spans[k].name))
    ensures NameAnswered(db, p, rel, spans, low)
  {
  }

  lemma {:induction false} ReportedOfDiff(git: Git, ch: Change, rel: string)
    requires ch.status == "M" && rel in git.diffs && Functions(git, rel).Spans?
    ensures Reported(git, ch, rel) == Overlapping(Functions(git, rel).spans, TextRanges(git.diffs[rel]))
  {
  }

  /**
  A finished diff run misses nothing: take a modified target whose diff is the one git writes for the
  edit from the old to the head's text, and any function the parser finds in the working tree that the
  head shares and is in step with. Either its lines in the head stand in the old text word for word, or a
  function of that case-folded name has a pending job.
  */
  lemma {:induction false} DiffRunMissesNothing(s: Db, p: nat, cdb: CompileDb, files: seq<string>, git: Git,
      now: Time, start: Pending, result: DiffResult, t: Db, i: nat, rel: string, oldText: string, head: string,
      script: seq<Hunk>, preamble: string, sides: seq<Side>, tree: string, k: nat, at: nat)
    requires p in s.products && Examines(s, p, git) && DiffDone(s, p, cdb, files, git, now, start, result, t)
    requires IdsFresh(s) && GitNamed(git) && ModifiesTarget(cdb, files, git, i, rel)
             && git.changes.value[i].status == "M"
    requires Edits(oldText, script, head) && WholeLines(preamble) && |sides| == |script|
    requires rel in git.diffs && git.diffs[rel] == preamble + ScriptText(script, 0, sides)
    requires Functions(git, rel) == Spans(ExtractedFromFile(tree)) && k < |ExtractedFromFile(tree)|
    requires SharedAt(tree, k, head, at) && InStep(tree, k, head, at)
    ensures || Verbatim(Lines(oldText), script, Lines(head), HeadStart(tree, k, head, at), HeadEnd(tree, k, head, at))
            || NameAnswered(t, p, Normalize(rel).value, ExtractedFromFile(tree), Lower(ExtractedFromFile(tree)[k].name))
  {
    hide Reported;
    hide Overlapping;
    hide DiffDone;
    hide Normalize;
    ReportedOfDiff(git, git.changes.value[i], rel);
    hide *;
    var spans := ExtractedFromFile(tree);
    var ranges := TextRanges(git.diffs[rel]);
    DiffIsFound(script, preamble, sides);
    if Lower(spans[k].name) in Folded(Overlapping(spans, ranges)) {
      ReportedIsAnswered(s, p, cdb, files, git, now, start, result, t, i, rel, spans, ranges, Lower(spans[k].name));
    } else {
      HeadChangesAreFound(oldText, head, script, ranges, tree, k, at);
    }
  }

  /** In a clean tree that is so for every function that no lone carriage return precedes. */
  lemma {:induction false} CleanRunMissesNothing(s: Db, p: nat, cdb: CompileDb, files: seq<string>, git: Git,
      now: Time, start: Pending, result: DiffResult, t: Db, i: nat, rel: string, oldText: string, head: string,
      script: seq<Hunk>, preamble: string, sides: seq<Side>, k: nat)
    requires p in s.products && Examines(s, p, git) && DiffDone(s, p, cdb, files, git, now, start, result, t)
    requires IdsFresh(s) && GitNamed(git) && ModifiesTarget(cdb, files, git, i, rel)
             && git.changes.value[i].status == "M"
    requires Edits(oldText, script, head) && WholeLines(preamble) && |sides| == |script|
    requires rel in git.diffs && git.diffs[rel] == preamble + ScriptText(script, 0, sides)
    requires Functions(git, rel) == Spans(ExtractedFromFile(head)) && k < |ExtractedFromFile(head)|
    requires NoLoneReturnBefore(head, StartOffset(head, k))
    ensures || Verbatim(Lines(oldText), script, Lines(head), GitStart(head, k), GitEnd(head, k))
            || NameAnswered(t, p, Normalize(rel).value, ExtractedFromFile(head), Lower(ExtractedFromFile(head)[k].name))
  {
    hide *;
    CleanTree(head, k);
    DiffRunMissesNothing(s, p, cdb, files, git, now, start, result, t, i, rel, oldText, head, script, preamble, sides,
        head, k, StartOffset(head, k));
  }

  function WithDiff(git: Git, rel: string, text: string): Git {
    git.(diffs := git.diffs[rel := text])
  }

  /** Whatever the diff of the file says, the change reports nothing. */
  ghost predicate IgnoresDiff(git: Git, ch: Change, rel: string) {
    forall text :: Reported(WithDiff(git, rel, text), ch, rel) == []
  }

  /** A diff with one hunk, over at least the lines first..last. */
  lemma {:induction false} SomeDiffMeets(first: nat, last: nat) returns (text: string)
    ensures Meets(first, last, TextRanges(text))
  {
    WideRange(first, last);
    hide *;
    text := HeaderText(1, None, last, Some(first + 1), "");
    HunkFirstLine(1, None, last, Some(first + 1), "");
    FirstLineCounts(text, last, Some(first + 1));
    WideRangeMeets(first, last, TextRanges(text));
  }

  lemma WideRange(first: nat, last: nat)
    ensures RangeOf(last, Some(first + 1)) == (last, last + first)
  {
  }

  lemma {:induction false} WideRangeMeets(first: nat, last: nat, ranges: seq<Range>)
    requires (last, last + first) in ranges
    ensures Meets(first, last, ranges)
  {
    var n :| 0 <= n < |ranges| && ranges[n] == (last, last + first);
    assert ranges[n].0 <= last && ranges[n].1 >= first;
  }

  lemma {:induction false} HitIsReported(spans: seq<FunctionSpan>, ranges: seq<Range>, k: nat)
    requires k < |spans| && Hit(spans[k], ranges)
    ensures Overlapping(spans, ranges) != []
  {
    OverlappingReports(spans, ranges);
    hide Overlapping;
    hide Hit;
    hide Lower;
    assert Lower(spans[k].name) in HitNames(spans, ranges);
  }

  lemma {:induction false} SomeDiffReports(git: Git, ch: Change, rel: string) returns (text: string)
    requires ch.status == "M" && Functions(git, rel).Spans? && Functions(git, rel).spans != []
    ensures Reported(WithDiff(git, rel, text), ch, rel) != []
  {
    var spans := Functions(git, rel).spans;
    text := SomeDiffMeets(spans[0].startLine, spans[0].endLine);
    HitIsReported(spans, TextRanges(text), 0);
    hide TextRanges;
    hide Overlapping;
  }

  lemma {:induction false} NothingToReport(git: Git, ch: Change, rel: string, text: string)
    requires ch.status == "M" && (Functions(git, rel).Spans? ==> Functions(git, rel).spans == [])
    ensures Reported(WithDiff(git, rel, text), ch, rel) == []
  {
  }

  /**
  A finished run moves the base past every change of a target. It leaves a modified one unexamined,
  so that whatever changed in it is not looked at again, exactly when its source could not be read
  or has no function.
  */
  lemma {:induction false} LeftUnexaminedExactly(s: Db, p: nat, cdb: CompileDb, files: seq<string>, git: Git, now: Time,
      start: Pending, result: DiffResult, t: Db, i: nat, rel: string)
    requires p in s.products && Examines(s, p, git) && DiffDone(s, p, cdb, files, git, now, start, result, t)
    requires i < |git.changes.value| && git.changes.value[i].status == "M"
    requires Normalize(git.changes.value[i].path) == Some(rel) && rel in TargetSet(files)
    ensures p in t.products && t.products[p].lastScanned == git.head
    ensures IgnoresDiff(git, git.changes.value[i], rel) <==>
            Functions(git, rel).NoFile? || Functions(git, rel).Unreadable? || Functions(git, rel).spans == []
  {
    var ch := git.changes.value[i];
    assert !ChangeCrashes(git, TargetSet(files), ch);
    hide ExaminedTo;
    hide Reported;
    if Functions(git, rel).Spans? && Functions(git, rel).spans != [] {
      var text := SomeDiffReports(git, ch, rel);
    } else {
      forall text ensures Reported(WithDiff(git, rel, text), ch, rel) == [] {
        NothingToReport(git, ch, rel, text);
      }
    }
  }

  /** The target `rel`, and no other, is normalised to `rel`. */
  predicate ReadAs(rels: seq<string>, rel: string) {
    forall k :: 0 <= k < |rels| && Normalize(rels[k]) == Some(rel) ==> rels[k] == rel
  }

  /** Every job that a diff run queues is for a target for which a change reports something. */
  lemma {:induction false} NewJobIsReported(w: Work, p: nat, cdb: CompileDb, git: Git, targets: set<string>,
      changes: seq<Change>, now: Time, j: nat) returns (i: nat, rel: string)
    requires IdsFresh(w.db) && Readable(DiffRequests(git, targets, changes))
    requires j in EnqueueAll(w, p, cdb, DiffRequests(git, targets, changes), now).db.jobs && j !in w.db.jobs
    ensures i < |changes| && rel in targets && Reported(git, changes[i], rel) != [] && Normalize(rel).Some?
    ensures var job := EnqueueAll(w, p, cdb, DiffRequests(git, targets, changes), now).db.jobs[j];
            job.product == p && job.files == [Normalize(rel).value]
  {
    hide Normalize;
    hide Reported;
    hide EnqueueAll;
    hide DiffRequests;
    hide InCompileDb;
    var m;
    var k := NewJobsWereRequested(w, p, cdb, DiffRequests(git, targets, changes), now, j);
    i, m := RequestOfChange(git, targets, changes, k);
    rel := Normalize(changes[i].path).value;
  }

  /** Although the base has moved, no job was queued for a file that could not be read, or in which no
      function was found, whatever changed in it. */
  lemma {:induction false} UnreadGetsNoJob(s: Db, p: nat, cdb: CompileDb, files: seq<string>, git: Git, now: Time,
      start: Pending, result: DiffResult, t: Db, rel: string, j: nat)
    requires p in s.products && Examines(s, p, git) && DiffDone(s, p, cdb, files, git, now, start, result, t)
    requires IdsFresh(s) && Targets(files).Some? && ReadAs(Targets(files).value, rel)
    requires Functions(git, rel).Spans? ==> Functions(git, rel).spans == []
    requires j in t.jobs && j !in s.jobs
    ensures p in t.products && t.products[p].lastScanned == git.head
    ensures t.jobs[j].product == p && t.jobs[j].files != [rel]
  {
    hide Targets;
    hide DiffRequests;
    hide Normalize;
    hide Agrees;
    hide EnqueueAll;
    hide Reported;
    hide Functions;
    hide Readable;
    var i, to := NewJobIsReported(Work(s, start, 0, 0), p, cdb, git, TargetSet(files), git.changes.value, now, j);
    var k :| 0 <= k < |Targets(files).value| && Targets(files).value[k] == to;
    NothingFound(git, git.changes.value[i], rel);
  }

  lemma {:induction false} NothingFound(git: Git, ch: Change, rel: string)
    requires Functions(git, rel).Spans? ==> Functions(git, rel).spans == []
    ensures Reported(git, ch, rel) == []
  {
  }

  /** A renamed and changed target gets a job for each of its functions. */
  lemma {:induction false} RenameRequeuesAll(s: Db, p: nat, cdb: CompileDb, files: seq<string>, git: Git, now: Time,
      start: Pending, result: DiffResult, t: Db, i: nat, rel: string, k: nat)
    requires p in s.products && Examines(s, p, git) && DiffDone(s, p, cdb, files, git, now, start, result, t)
    requires IdsFresh(s) && GitNamed(git) && ModifiesTarget(cdb, files, git, i, rel)
    requires "R" <= git.changes.value[i].status && git.changes.value[i].status != "R100"
    requires Functions(git, rel).Spans? && k < |Functions(git, rel).spans|
    requires var span := Functions(git, rel).spans[k]; span.startLine <= 0x8000_0000 && span.endLine >= 1
    ensures NameAnswered(t, p, Normalize(rel).value, Functions(git, rel).spans,
                         Lower(Functions(git, rel).spans[k].name))
  {
    var spans := Functions(git, rel).spans;
    var names := Overlapping(spans, WHOLE_FILE);
    assert Reported(git, git.changes.value[i], rel) == names;
    OverlappingReports(spans, WHOLE_FILE);
    assert Meets(spans[k].startLine, spans[k].endLine, WHOLE_FILE) by {
      assert WHOLE_FILE[0].0 <= spans[k].endLine && WHOLE_FILE[0].1 >= spans[k].startLine;
    }
    assert Lower(spans[k].name) in HitNames(spans, WHOLE_FILE);
    hide *;
    ReportedIsAnswered(s, p, cdb, files, git, now, start, result, t, i, rel, spans, WHOLE_FILE,
        Lower(spans[k].name));
  }

  lemma {:induction false} DiffIsAlike(git: Git, files: seq<string>, changes: seq<Change>, rel: string)
    requires Targets(files).Some? && Readable(DiffRequests(git, TargetSet(files), changes))
    requires ReadBackAlike(Targets(files).value, rel)
    ensures SpelledAlike(DiffRequests(git, TargetSet(files), changes), rel)
  {
    hide Reported;
    hide Normalize;
    hide Targets;
    hide DiffRequests;
    var rs := DiffRequests(git, TargetSet(files), changes);
    forall k | 0 <= k < |rs| && Normalize(Rel(rs[k])) == Some(rel) ensures Rel(rs[k]) == rel {
      var i, m := RequestOfChange(git, TargetSet(files), changes, k);
      var n :| 0 <= n < |Targets(files).value| && Targets(files).value[n] == rs[k].file;
    }
  }

  /** No job that a diff run queues for a file is for what an older pending job does already. */
  lemma {:induction false} DiffMakesNoDuplicates(s: Db, p: nat, cdb: CompileDb, files: seq<string>, git: Git,
      now: Time, start: Pending, result: DiffResult, t: Db, rel: string, i: nat, j: nat)
    requires p in s.products && Examines(s, p, git) && DiffDone(s, p, cdb, files, git, now, start, result, t)
    requires IdsFresh(s) && GitNamed(git) && ReadBackAlike(Targets(files).value, rel)
    requires j in t.jobs && j !in s.jobs && t.jobs[j].files == [rel] && i < j && IsPending(t, p, i)
    ensures !Serves(t.jobs[i], rel, t.jobs[j].function_)
  {
    DiffIsAlike(git, files, git.changes.value, rel);
    DiffNamesAreNotEmpty(git, TargetSet(files), git.changes.value);
    AgreementIsComplete(s, p, start, rel);
    hide Agrees;
    hide CompleteAt;
    hide SpelledAlike;
    hide ReadBackAlike;
    hide Serves;
    hide Targets;
    hide DiffRequests;
    hide EnqueueAll;
    NoDuplicates(Work(s, start, 0, 0), p, cdb, DiffRequests(git, TargetSet(files), git.changes.value), now, rel, i, j);
  }

  // ---- Why a diff run queues a job ----

  /** The change is a reason for a job for the function: the file was modified, and the function with it,
      or it was renamed and changed. */
  predicate Reason(git: Git, ch: Change, rel: string, span: FunctionSpan) {
    || (ch.status == "M" && rel in git.diffs && Hit(span, TextRanges(git.diffs[rel])))
    || ("R" <= ch.status && ch.status != "R100")
  }

  lemma {:induction false} ReportedForReason(git: Git, ch: Change, rel: string, m: nat) returns (k: nat)
    requires m < |Reported(git, ch, rel)|
    ensures rel in git.sources && git.sources[rel].Spans? && k < |git.sources[rel].spans|
    ensures git.sources[rel].spans[k].name == Reported(git, ch, rel)[m]
    ensures Reason(git, ch, rel, git.sources[rel].spans[k])
  {
    hide Overlapping;
    hide TextRanges;
    assert Functions(git, rel).Spans?;
    var spans := Functions(git, rel).spans;
    ReportedAreSpans(spans, WHOLE_FILE);
    if !Renamed(ch.status) {
      var ranges := TextRanges(git.diffs[rel]);
      ReportedAreSpans(spans, ranges);
      k :| 0 <= k < |spans| && spans[k].name == Reported(git, ch, rel)[m] && Hit(spans[k], ranges);
    } else {
      k :| 0 <= k < |spans| && spans[k].name == Reported(git, ch, rel)[m];
    }
  }

  /** A job that `rel` in the compile database gets for a function, as the service makes it by itself. */
  predicate MadeFor(job: Job, p: nat, cdb: CompileDb, rel: string, name: string) {
    && job.product == p && job.kind == Genut && job.origin == Auto && job.status == Queued
    && Normalize(rel).Some? && job.files == [Normalize(rel).value] && job.function_ == Some(name)
    && (Normalize(rel).value in cdb.rels || Name(Normalize(rel).value) in cdb.bases)
  }

  lemma {:induction false} RequestedForReason(w: Work, p: nat, cdb: CompileDb, git: Git, targets: set<string>,
      changes: seq<Change>, now: Time, j: nat) returns (i: nat, rel: string, k: nat)
    requires IdsFresh(w.db) && GitNamed(git) && Readable(DiffRequests(git, targets, changes))
    requires j in EnqueueAll(w, p, cdb, DiffRequests(git, targets, changes), now).db.jobs && j !in w.db.jobs
    ensures i < |changes| && Normalize(changes[i].path) == Some(rel) && rel in targets
    ensures rel in git.sources && git.sources[rel].Spans? && k < |git.sources[rel].spans|
    ensures Reason(git, changes[i], rel, git.sources[rel].spans[k])
    ensures MadeFor(EnqueueAll(w, p, cdb, DiffRequests(git, targets, changes), now).db.jobs[j], p, cdb, rel,
                    git.sources[rel].spans[k].name)
  {
    hide Normalize;
    hide Reported;
    hide EnqueueAll;
    hide DiffRequests;
    hide Reason;
    var m;
    var n := NewJobsWereRequested(w, p, cdb, DiffRequests(git, targets, changes), now, j);
    i, m := RequestOfChange(git, targets, changes, n);
    rel := Normalize(changes[i].path).value;
    k := ReportedForReason(git, changes[i], rel, m);
    assert git.sources[rel].spans[k].name != "";
  }

  /**
  A diff run queues nothing without a reason, however it ends: every new job is for a function of a target
  that a change has modified, where the diff touches its lines, or that was renamed and changed.
  */
  lemma {:induction false} DiffIsSound(s: Db, p: nat, cdb: CompileDb, files: seq<string>, git: Git, now: Time,
      start: Pending, seen: seq<Change>, result: DiffResult, t: Db, j: nat) returns (i: nat, rel: string, k: nat)
    requires p in s.products && DiffRun(s, p, cdb, files, git, now, start, seen, result, t)
    requires IdsFresh(s) && GitNamed(git) && j in t.jobs && j !in s.jobs
    ensures git.changes.Some? && i < |git.changes.value| && Normalize(git.changes.value[i].path) == Some(rel)
    ensures Targets(files).Some? && rel in Targets(files).value
    ensures rel in git.sources && git.sources[rel].Spans? && k < |git.sources[rel].spans|
    ensures Reason(git, git.changes.value[i], rel, git.sources[rel].spans[k])
    ensures MadeFor(t.jobs[j], p, cdb, rel, git.sources[rel].spans[k].name)
  {
    hide Targets;
    hide DiffRequests;
    hide Normalize;
    hide Agrees;
    hide EnqueueAll;
    hide Reason;
    hide MadeFor;
    hide GitNamed;
    hide Readable;
    hide ChangeCrashes;
    i, rel, k := RequestedForReason(Work(s, start, 0, 0), p, cdb, git, TargetSet(files), seen, now, j);
  }

  /** Jobs for the change are for the file of that name. */
  predicate Reaches(ch: Change, file: string) {
    Normalize(ch.path).Some? && Normalize(Normalize(ch.path).value) == Some(file)
  }

  lemma MadeReaches(job: Job, p: nat, cdb: CompileDb, rel: string, name: string, ch: Change, file: string)
    requires MadeFor(job, p, cdb, rel, name) && Normalize(ch.path) == Some(rel)
    ensures job.function_ == Some(name) && (job.files == [file] ==> Reaches(ch, file))
  {
    hide Normalize;
  }

  /** Files that were only added, deleted or renamed as they are get no job from a diff run. */
  lemma {:induction false} OthersGetNoJob(s: Db, p: nat, cdb: CompileDb, files: seq<string>, git: Git, now: Time,
      start: Pending, seen: seq<Change>, result: DiffResult, t: Db, file: string, j: nat)
    requires p in s.products && DiffRun(s, p, cdb, files, git, now, start, seen, result, t)
    requires IdsFresh(s) && GitNamed(git) && j in t.jobs && j !in s.jobs
    requires git.changes.Some?
    requires forall i :: 0 <= i < |git.changes.value| && Reaches(git.changes.value[i], file) ==>
               git.changes.value[i].status in {"A", "D", "R100"}
    ensures t.jobs[j].files != [file]
  {
    hide *;
    var i, rel, k := DiffIsSound(s, p, cdb, files, git, now, start, seen, result, t, j);
    MadeReaches(t.jobs[j], p, cdb, rel, git.sources[rel].spans[k].name, git.changes.value[i], file);
    NoReason(git, git.changes.value[i], rel, git.sources[rel].spans[k]);
  }

  lemma NoReason(git: Git, ch: Change, rel: string, span: FunctionSpan)
    requires Reason(git, ch, rel, span)
    ensures ch.status !in {"A", "D", "R100"}
  {
    hide Hit;
    hide TextRanges;
  }

  /** A function gets no job from a diff run if its file was only modified, and the diff touches none of
      the functions of its name, whatever the case. */
  lemma {:induction false} UntouchedGetsNoJob(s: Db, p: nat, cdb: CompileDb, files: seq<string>, git: Git, now: Time,
      start: Pending, seen: seq<Change>, result: DiffResult, t: Db, file: string, name: string, j: nat)
    requires p in s.products && DiffRun(s, p, cdb, files, git, now, start, seen, result, t)
    requires IdsFresh(s) && GitNamed(git) && j in t.jobs && j !in s.jobs
    requires git.changes.Some?
    requires forall i :: 0 <= i < |git.changes.value| && Reaches(git.changes.value[i], file) ==>
               git.changes.value[i].status == "M"
               && Untouched(git, Normalize(git.changes.value[i].path).value, name)
    ensures t.jobs[j].files == [file] ==>
              t.jobs[j].function_.Some? && Lower(t.jobs[j].function_.value) != Lower(name)
  {
    hide *;
    var i, rel, k := DiffIsSound(s, p, cdb, files, git, now, start, seen, result, t, j);
    MadeReaches(t.jobs[j], p, cdb, rel, git.sources[rel].spans[k].name, git.changes.value[i], file);
    if t.jobs[j].files == [file] {
      ReasonIsTouch(git, git.changes.value[i], rel, k, name);
    }
  }

  lemma ReasonIsTouch(git: Git, ch: Change, rel: string, k: nat, name: string)
    requires rel in git.sources && git.sources[rel].Spans? && k < |git.sources[rel].spans|
    requires Reason(git, ch, rel, git.sources[rel].spans[k]) && ch.status == "M" && Untouched(git, rel, name)
    ensures Lower(git.sources[rel].spans[k].name) != Lower(name)
  {
    hide Hit;
    hide TextRanges;
    hide Lower;
    assert ch.status[0] == 'M' && "R"[0] == 'R';
  }

  /** The diff touches no function that is called so, whatever the case. */
  predicate Untouched(git: Git, rel: string, name: string) {
    rel in git.sources && git.sources[rel].Spans? && rel in git.diffs ==>
      forall k :: 0 <= k < |git.sources[rel].spans| && Lower(git.sources[rel].spans[k].name) == Lower(name) ==>
        !Hit(git.sources[rel].spans[k], TextRanges(git.diffs[rel]))
  }

  /** A run examines all changes only if git and the extractor answered for every modified target. */
  lemma {:induction false} FinishedHadAnswers(s: Db, p: nat, cdb: CompileDb, files: seq<string>, git: Git, now: Time,
      start: Pending, result: DiffResult, t: Db, i: nat, rel: string)
    requires p in s.products && Examines(s, p, git) && DiffDone(s, p, cdb, files, git, now, start, result, t)
    requires i < |git.changes.value|
    ensures Targets(files).Some? && Normalize(git.changes.value[i].path).Some?
    ensures Normalize(git.changes.value[i].path) == Some(rel) && rel in Targets(files).value
            && git.changes.value[i].status == "M" ==>
              rel in git.diffs && (rel in git.sources ==> git.sources[rel] != ExtractorFailed)
  {
    hide Normalize;
    hide Targets;
    hide DiffRequests;
    hide Agrees;
    hide EnqueueAll;
    hide Reported;
    assert !ChangeCrashes(git, TargetSet(files), git.changes.value[i]);
  }

  /** The number of files touched is the number of changes that are of a target. */
  lemma {:induction false} TouchedCounts(targets: set<string>, changes: seq<Change>)
    ensures Touched(targets, changes) ==
            |set i | 0 <= i < |changes| && (exists rel :: rel in targets && Normalize(changes[i].path) == Some(rel))|
    decreases |changes|
  {
    hide Normalize;
    var all := set i | 0 <= i < |changes| && exists rel :: rel in targets && Normalize(changes[i].path) == Some(rel);
    if changes == [] {
      assert all == {};
    } else {
      var front, n := changes[..|changes| - 1], |changes| - 1;
      TouchedCounts(targets, front);
      var before := set i | 0 <= i < |front| && exists rel :: rel in targets && Normalize(front[i].path) == Some(rel);
      assert forall i :: 0 <= i < |front| ==> front[i] == changes[i];
      assert all == before + if Touches(targets, changes[n]) then {n} else {};
      assert n !in before;
    }
  }
}

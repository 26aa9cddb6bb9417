/** Queueing GENUT jobs without duplicates: an index of the pending jobs stands for the job table. */
module Enqueue {
  import opened Database
  import opened Paths
  import AutoTick

  datatype CompileDb = CompileDb(rels: set<string>, bases: set<string>)

  predicate InCompileDb(cdb: CompileDb, rel: string) {
    rel in cdb.rels || Name(rel) in cdb.bases
  }

  // ---- The job table, searched naively ----

  predicate IsPending(db: Db, p: nat, j: nat) {
    && j in db.jobs && db.jobs[j].product == p && db.jobs[j].kind == Genut
    && (db.jobs[j].status == Queued || db.jobs[j].status == Running)
  }

  predicate Names(job: Job, rel: string) {
    exists k :: 0 <= k < |job.files| && Normalize(job.files[k]) == Some(rel)
  }

  /** A job for the whole file does for every function; for a request for the whole file any job
      of the file does. */
  predicate Serves(job: Job, rel: string, function_: Option<string>) {
    Names(job, rel) && Suits(job, function_)
  }

  predicate Suits(job: Job, function_: Option<string>) {
    function_.None? || job.function_.None? || job.function_ == function_
  }

  /** A pending job of the product makes the request unnecessary. */
  ghost predicate Covered(db: Db, p: nat, rel: string, function_: Option<string>) {
    exists j :: IsPending(db, p, j) && Serves(db.jobs[j], rel, function_)
  }

  // ---- The index ----

  /** For each file, the functions with a pending job, and that job; no function name stands for
      the whole file. */
  type Pending = map<string, map<Option<string>, nat>>

  predicate Lookup(pending: Pending, rel: string, function_: Option<string>) {
    rel in pending && function_ in pending[rel]
  }

  /** What the index has is in the table. */
  ghost predicate Sound(db: Db, p: nat, pending: Pending) {
    forall rel, f :: Lookup(pending, rel, f) ==>
      var j := pending[rel][f];
      IsPending(db, p, j) && Names(db.jobs[j], rel) && db.jobs[j].function_ == f
  }

  /** What the table has is in the index. */
  ghost predicate Complete(db: Db, p: nat, pending: Pending) {
    forall j, rel :: IsPending(db, p, j) && Names(db.jobs[j], rel) ==> Lookup(pending, rel, db.jobs[j].function_)
  }

  ghost predicate Agrees(db: Db, p: nat, pending: Pending) {
    Sound(db, p, pending) && Complete(db, p, pending)
  }

  predicate InIndex(pending: Pending, rel: string, function_: Option<string>) {
    rel in pending
        && (if function_.None? then pending[rel] != map[] else None in pending[rel] || function_ in pending[rel])
  }

  /** `setdefault`, twice. */
  function Noted(pending: Pending, rel: string, function_: Option<string>, id: nat): Pending {
    var functions := if rel in pending then pending[rel] else map[];
    pending[rel := if function_ in functions then functions else functions[function_ := id]]
  }

  /** While the index agrees with the table, looking up the one is searching the other. */
  lemma IndexRefinesTable(db: Db, p: nat, pending: Pending, rel: string, function_: Option<string>)
    requires Agrees(db, p, pending)
    ensures InIndex(pending, rel, function_) <==> Covered(db, p, rel, function_)
  {
    hide Names;
    if InIndex(pending, rel, function_) {
      var f :| f in pending[rel] && (function_.None? || f.None? || f == function_);
      assert Lookup(pending, rel, f);
      assert Serves(db.jobs[pending[rel][f]], rel, function_);
    }
    if Covered(db, p, rel, function_) {
      var j :| IsPending(db, p, j) && Serves(db.jobs[j], rel, function_);
      assert Lookup(pending, rel, db.jobs[j].function_);
    }
  }

  /** No file of a pending job is refused. */
  ghost predicate Indexable(db: Db, p: nat) {
    forall j, k :: IsPending(db, p, j) && 0 <= k < |db.jobs[j].files| ==> Normalize(db.jobs[j].files[k]).Some?
  }

  /** One scan's or one diff's view of the compile database and of the pending jobs. */
  class EnqueueContext {
    const cdb: CompileDb
    var pending: Pending

    constructor (cdb: CompileDb)
      ensures this.cdb == cdb && pending == map[]
    {
      this.cdb := cdb;
      pending := map[];
    }

    method NoteEnqueued(rel: string, function_: Option<string>, id: nat)
      modifies this
      ensures pending == Noted(old(pending), rel, function_, id)
    {
      if rel !in pending {
        pending := pending[rel := map[]];
      }
      if function_ !in pending[rel] {
        var functions: map<Option<string>, nat> := pending[rel][function_ := id];
        pending := pending[rel := functions];
      }
    }

    /** The index is built from the table, unless a stored path is refused. */
    method IndexJobs(db: Db, p: nat) returns (ok: bool)
      requires pending == map[]
      modifies this
      ensures ok <==> Indexable(db, p)
      ensures ok ==> Agrees(db, p, pending)
    {
      hide Normalize;
      var todo := set j | j in db.jobs && IsPending(db, p, j);
      ghost var all := todo;
      while todo != {}
        invariant todo <= all && Sound(db, p, pending)
        invariant forall j, rel :: j in all - todo && Names(db.jobs[j], rel) ==>
                  Lookup(pending, rel, db.jobs[j].function_)
        invariant forall j, k :: j in all - todo && 0 <= k < |db.jobs[j].files| ==> Normalize(db.jobs[j].files[k]).Some?
        decreases |todo|
      {
        var j :| j in todo;
        ok := IndexJob(db, p, j);
        if !ok {
          return;
        }
        todo := todo - {j};
      }
      ok := true;
    }

    method IndexJob(db: Db, p: nat, j: nat) returns (ok: bool)
      requires IsPending(db, p, j) && Sound(db, p, pending)
      modifies this
      ensures Sound(db, p, pending)
      ensures forall rel, f :: Lookup(old(pending), rel, f) ==> Lookup(pending, rel, f)
      ensures ok <==> forall k :: 0 <= k < |db.jobs[j].files| ==> Normalize(db.jobs[j].files[k]).Some?
      ensures ok ==> forall rel :: Names(db.jobs[j], rel) ==> Lookup(pending, rel, db.jobs[j].function_)
    {
      hide Normalize;
      var job := db.jobs[j];
      for k := 0 to |job.files|
        invariant Sound(db, p, pending)
        invariant forall rel, f :: Lookup(old(pending), rel, f) ==> Lookup(pending, rel, f)
        invariant forall i :: 0 <= i < k ==>
          Normalize(job.files[i]).Some? && Lookup(pending, Normalize(job.files[i]).value, job.function_)
      {
        var rel := NormalizeRelPath(job.files[k]);
        if rel.None? {
          return false;
        }
        ghost var was := pending;
        NoteEnqueued(rel.value, job.function_, j);
        NotedLookup(was, rel.value, job.function_, j);
        assert Names(job, rel.value);
      }
      ok := true;
    }

    /** The job that stands for the request, if there is one. */
    method PendingJobId(rel: string, function_: Option<string>, anyFunction: bool) returns (id: Option<nat>)
      requires anyFunction == function_.None?
      ensures id.Some? <==> InIndex(pending, rel, function_)
      ensures id.Some? ==>
                exists f ::
                  && Lookup(pending, rel, f) && pending[rel][f] == id.value
                  && (anyFunction || f.None? || f == function_)
    {
      if rel !in pending || pending[rel] == map[] {
        return None;
      }
      var functions := pending[rel];
      if anyFunction {
        var f :| f in functions;
        assert Lookup(pending, rel, f);
        return Some(functions[f]);
      }
      if None in functions {
        assert Lookup(pending, rel, None);
        return Some(functions[None]);
      }
      if function_ in functions {
        assert Lookup(pending, rel, function_);
        return Some(functions[function_]);
      }
      return None;
    }
  }

  lemma NotedLookup(pending: Pending, rel: string, function_: Option<string>, id: nat)
    ensures var t := Noted(pending, rel, function_, id);
            && (forall r, f :: Lookup(t, r, f) <==> Lookup(pending, r, f) || (r == rel && f == function_))
            && (forall r, f :: Lookup(pending, r, f) ==> t[r][f] == pending[r][f])
            && (!Lookup(pending, rel, function_) ==> t[rel][function_] == id)
  {
  }

  // ---- enqueue_genut_job ----

  datatype Request = Request(file: string, function_: Option<string>)

  /** The tables, the index, and the counts of a scan or a diff under way. */
  datatype Work = Work(db: Db, pending: Pending, created: nat, skipped: nat)

  function AutoJob(p: nat, rel: string, function_: Option<string>, now: Time): Job {
    NewJob(p, Genut, Auto, Given(function_), [rel], now)
  }

  predicate Skips(s: Work, cdb: CompileDb, rel: string, function_: Option<string>) {
    InIndex(s.pending, rel, function_) || !InCompileDb(cdb, rel)
  }

  function Enqueued(s: Work, p: nat, cdb: CompileDb, r: Request, now: Time): Work
    requires Normalize(r.file).Some?
  {
    var rel := Normalize(r.file).value;
    if Skips(s, cdb, rel, r.function_) then s.(skipped := s.skipped + 1)
    else
      s.(db := s.db.(jobs := s.db.jobs[s.db.nextJob := AutoJob(p, rel, r.function_, now)], nextJob := s.db.nextJob + 1),
         pending := Noted(s.pending, rel, r.function_, s.db.nextJob),
         created := s.created + 1)
  }

  datatype EnqueueResult = Created(id: nat) | Skipped | BadPath

  method EnqueueGenutJob(session: Session, ctx: EnqueueContext, p: nat, r: Request, now: Time)
      returns (result: EnqueueResult)
    requires session.Clean()
    modifies session, ctx
    ensures session.Clean()
    ensures result.BadPath? <==> Normalize(r.file).None?
    ensures result.BadPath? ==> session.View() == old(session.View()) && ctx.pending == old(ctx.pending)
    ensures !result.BadPath? ==>
              Work(session.View(), ctx.pending, if result.Created? then 1 else 0, if result.Created? then 0 else 1)
              == Enqueued(Work(old(session.View()), old(ctx.pending), 0, 0), p, ctx.cdb, r, now)
    ensures result.Created? ==> result.id == old(session.nextJob)
  {
    hide Normalize;
    var rel := NormalizeRelPath(r.file);
    if rel.None? {
      return BadPath;
    }
    var pendingId := ctx.PendingJobId(rel.value, r.function_, r.function_.None?);
    if pendingId.Some? {
      return Skipped;
    }
    if !InCompileDb(ctx.cdb, rel.value) {
      return Skipped;
    }
    var function_ := Given(r.function_);
    var id := session.AddJob(NewJob(p, Genut, Auto, function_, [rel.value], now));
    session.Commit();
    ctx.NoteEnqueued(rel.value, r.function_, id);
    return Created(id);
  }

  /** A pending row of the product for the file is for the whole file, or for what is asked for, or the
      whole file is asked for. */
  ghost predicate InTheWay(db: Db, p: nat, rel: string, function_: Option<string>, j: nat) {
    && j in db.jobs && db.jobs[j].product == p && db.jobs[j].kind == Genut
    && (db.jobs[j].status == Queued || db.jobs[j].status == Running)
    && (exists k :: 0 <= k < |db.jobs[j].files| && Normalize(db.jobs[j].files[k]) == Some(rel))
    && (db.jobs[j].function_ == None || function_ == None || db.jobs[j].function_ == function_)
  }

  lemma CoveredIsInTheWay(db: Db, p: nat, rel: string, function_: Option<string>)
    ensures Covered(db, p, rel, function_) <==> exists j :: InTheWay(db, p, rel, function_, j)
  {
    hide Normalize;
    if Covered(db, p, rel, function_) {
      var j :| IsPending(db, p, j) && Serves(db.jobs[j], rel, function_);
      assert InTheWay(db, p, rel, function_, j);
    }
    if j :| InTheWay(db, p, rel, function_, j) {
      assert IsPending(db, p, j) && Serves(db.jobs[j], rel, function_);
    }
  }

  /** A request queues a job exactly when the compile database has the file, by path or by name, and no
      pending job is in the way; nothing else changes. */
  lemma RequestCreatesExactly(s: Work, p: nat, cdb: CompileDb, r: Request, now: Time)
    requires Agrees(s.db, p, s.pending) && Normalize(r.file).Some?
    ensures var t, rel, id := Enqueued(s, p, cdb, r, now), Normalize(r.file).value, s.db.nextJob;
            if (rel in cdb.rels || Name(rel) in cdb.bases) && forall j :: !InTheWay(s.db, p, rel, r.function_, j) then
              && t.db.jobs.Keys == s.db.jobs.Keys + {id} && t.db.nextJob == id + 1
              && (forall j :: j in s.db.jobs && j != id ==> t.db.jobs[j] == s.db.jobs[j])
              && var job := t.db.jobs[id];
                 && job.product == p && job.kind == Genut && job.origin == Auto && job.status == Queued
                 && job.files == [rel] && job.submittedAt == now
                 && job.function_ == if r.function_ == Some("") then None else r.function_
            else t.db == s.db
  {
    var rel := Normalize(r.file).value;
    IndexRefinesTable(s.db, p, s.pending, rel, r.function_);
    hide Normalize;
    hide Agrees;
    hide Noted;
    hide Name;
    hide InIndex;
    CoveredIsInTheWay(s.db, p, rel, r.function_);
    hide Covered;
    hide InTheWay;
  }

  /** The counts only count. */
  lemma {:induction false} CountsAdd(s: Work, p: nat, cdb: CompileDb, r: Request, now: Time)
    requires Normalize(r.file).Some?
    ensures var t := Enqueued(s.(created := 0, skipped := 0), p, cdb, r, now);
            Enqueued(s, p, cdb, r, now) == t.(created := s.created + t.created, skipped := s.skipped + t.skipped)
  {
    hide Normalize;
    hide InIndex;
    hide InCompileDb;
  }

  lemma AutoJobNames(p: nat, rel: string, function_: Option<string>, now: Time)
    ensures forall r :: Names(AutoJob(p, rel, function_, now), r) <==> Normalize(rel) == Some(r)
  {
    hide Normalize;
    var job := AutoJob(p, rel, function_, now);
    assert job.files[0] == rel;
  }

  /** The index still agrees with the table after a request, exactly when nothing was created, or
      the function name is not empty and the path does not change when it is read back. */
  lemma AgreementIsKeptExactly(s: Work, p: nat, cdb: CompileDb, r: Request, now: Time)
    requires IdsFresh(s.db) && Agrees(s.db, p, s.pending) && Normalize(r.file).Some?
    ensures var t := Enqueued(s, p, cdb, r, now);
            Agrees(t.db, p, t.pending) <==>
              t.created == s.created || (r.function_ != Some("") && Trimmed(Normalize(r.file).value))
  {
    var rel := Normalize(r.file).value;
    NormalFormIsStable(r.file);
    hide Normalize;
    hide Trimmed;
    if !Skips(s, cdb, rel, r.function_) {
      CreationKeepsAgreementExactly(s, p, rel, r.function_, now);
    }
  }

  lemma CreationKeepsAgreementExactly(s: Work, p: nat, rel: string, function_: Option<string>, now: Time)
    requires IdsFresh(s.db) && Agrees(s.db, p, s.pending) && !InIndex(s.pending, rel, function_)
    ensures var id := s.db.nextJob;
            var t := s.db.(jobs := s.db.jobs[id := AutoJob(p, rel, function_, now)], nextJob := id + 1);
            Agrees(t, p, Noted(s.pending, rel, function_, id)) <==> function_ != Some("") && Normalize(rel) == Some(rel)
  {
    hide Normalize;
    var id := s.db.nextJob;
    var job := AutoJob(p, rel, function_, now);
    var t := s.db.(jobs := s.db.jobs[id := job], nextJob := id + 1);
    var pending := Noted(s.pending, rel, function_, id);
    AutoJobNames(p, rel, function_, now);
    NotedLookup(s.pending, rel, function_, id);
    hide Noted;
    hide Names;
    assert !Lookup(s.pending, rel, function_);
    assert forall j :: IsPending(t, p, j) <==> IsPending(s.db, p, j) || j == id;
    if function_ != Some("") && Normalize(rel) == Some(rel) {
      assert Sound(t, p, pending);
      assert Complete(t, p, pending);
    } else {
      assert Lookup(pending, rel, function_) && pending[rel][function_] == id;
    }
  }

  lemma {:induction false} LetterIsNormal()
    ensures Normalize("a") == Some("a")
  {
    assert StripRight(StripLeft("a")) == "a" && Slashes("a") == "a" && DropSlashes("a") == "a";
    OneSegment("a", "a");
  }

  lemma {:induction false} EmptyNameIsLost(t: Work)
    requires t.db.jobs == map[1 := AutoJob(1, "a", Some(""), 0)] && t.pending == map["a" := map[Some("") := 1]]
    ensures Normalize("a") == Some("a") ==> Covered(t.db, 1, "a", Some("f"))
    ensures !InIndex(t.pending, "a", Some("f"))
  {
    hide Normalize;
    if Normalize("a") == Some("a") {
      AutoJobNames(1, "a", Some(""), 0);
      assert IsPending(t.db, 1, 1) && Serves(t.db.jobs[1], "a", Some("f"));
    }
  }

  /** An empty function name is stored as none at all, and is then not found in the index. */
  lemma {:induction false} EmptyNameBreaksAgreement() returns (s: Work, cdb: CompileDb, r: Request)
    ensures IdsFresh(s.db) && Agrees(s.db, 1, s.pending) && Normalize(r.file).Some?
    ensures var t := Enqueued(s, 1, cdb, r, 0);
            Covered(t.db, 1, Normalize(r.file).value, Some("f"))
                && !InIndex(t.pending, Normalize(r.file).value, Some("f"))
  {
    s := Work(Db(map[], map[], map[], map[], 1), map[], 0, 0);
    cdb := CompileDb({"a"}, {});
    r := Request("a", Some(""));
    LetterIsNormal();
    hide Normalize;
    hide Covered;
    hide AutoJob;
    EmptyNameIsLost(Enqueued(s, 1, cdb, r, 0));
  }

  // ---- Many requests ----

  predicate Readable(rs: seq<Request>) {
    forall k :: 0 <= k < |rs| ==> Normalize(rs[k].file).Some?
  }

  function Rel(r: Request): string
    requires Normalize(r.file).Some?
  {
    Normalize(r.file).value
  }

  function EnqueueAll(s: Work, p: nat, cdb: CompileDb, rs: seq<Request>, now: Time): (t: Work)
    requires Readable(rs)
    ensures t.db.products == s.db.products
  {
    if rs == [] then s
    else Enqueued(EnqueueAll(s, p, cdb, rs[..|rs| - 1], now), p, cdb, rs[|rs| - 1], now)
  }

  lemma {:induction false} EnqueueNothing(s: Work, p: nat, cdb: CompileDb, now: Time)
    ensures EnqueueAll(s, p, cdb, [], now) == s
  {
  }

  lemma {:induction false} EnqueueSnoc(s: Work, p: nat, cdb: CompileDb, rs: seq<Request>, now: Time)
    requires Readable(rs) && rs != []
    ensures EnqueueAll(s, p, cdb, rs, now) ==
            Enqueued(EnqueueAll(s, p, cdb, rs[..|rs| - 1], now), p, cdb, rs[|rs| - 1], now)
  {
    hide Enqueued;
  }

  lemma {:induction false} EnqueueConcat(s: Work, p: nat, cdb: CompileDb, a: seq<Request>, b: seq<Request>, now: Time)
    requires Readable(a) && Readable(b)
    ensures Readable(a + b)
    ensures EnqueueAll(s, p, cdb, a + b, now) == EnqueueAll(EnqueueAll(s, p, cdb, a, now), p, cdb, b, now)
    decreases |b|
  {
    hide Enqueued;
    hide Normalize;
    if b == [] {
      assert a + b == a;
    } else {
      var front := b[..|b| - 1];
      EnqueueConcat(s, p, cdb, a, front, now);
      assert (a + b)[..|a + b| - 1] == a + front;
      EnqueueSnoc(s, p, cdb, a + b, now);
      EnqueueSnoc(EnqueueAll(s, p, cdb, a, now), p, cdb, b, now);
      hide EnqueueAll;
    }
  }

  /** Jobs are only added, with the next ids, and every request is counted once. */
  lemma {:induction false} EnqueueAdds(s: Work, p: nat, cdb: CompileDb, rs: seq<Request>, now: Time)
    requires IdsFresh(s.db) && Readable(rs)
    ensures var t := EnqueueAll(s, p, cdb, rs, now);
            && IdsFresh(t.db) && s.db.nextJob <= t.db.nextJob
            && (forall j :: j in s.db.jobs ==> j in t.db.jobs && t.db.jobs[j] == s.db.jobs[j])
            && (forall j :: j in t.db.jobs && j !in s.db.jobs <==> s.db.nextJob <= j < t.db.nextJob)
            && t.db == s.db.(jobs := t.db.jobs, nextJob := t.db.nextJob)
            && t.created - s.created == t.db.nextJob - s.db.nextJob
            && (t.created + t.skipped) - (s.created + s.skipped) == |rs|
    decreases |rs|
  {
    hide Normalize;
    hide AutoJob;
    hide Noted;
    hide Skips;
    if rs != [] {
      EnqueueAdds(s, p, cdb, rs[..|rs| - 1], now);
    }
  }

  /** The job is for the file, as it is read back or as it is spelled. */
  predicate IsFor(job: Job, rel: string) {
    Names(job, rel) || job.files == [rel]
  }

  /** A pending job of the product does for the request. */
  ghost predicate Answered(db: Db, p: nat, rel: string, function_: Option<string>) {
    exists j :: IsPending(db, p, j) && IsFor(db.jobs[j], rel) && Suits(db.jobs[j], function_)
  }

  /** For a path that does not change when it is read back, that is what a search of the table finds. */
  lemma AnsweredIsCovered(db: Db, p: nat, rel: string, function_: Option<string>)
    requires Normalize(rel) == Some(rel)
    ensures Answered(db, p, rel, function_) <==> Covered(db, p, rel, function_)
  {
    hide Normalize;
    hide Suits;
    forall job: Job ensures IsFor(job, rel) <==> Names(job, rel) {
      assert job.files == [rel] ==> job.files[0] == rel;
    }
    hide Names;
    hide IsFor;
    if Answered(db, p, rel, function_) {
      var j :| IsPending(db, p, j) && IsFor(db.jobs[j], rel) && Suits(db.jobs[j], function_);
      assert Serves(db.jobs[j], rel, function_);
    }
    if Covered(db, p, rel, function_) {
      var j :| IsPending(db, p, j) && Serves(db.jobs[j], rel, function_);
      assert IsFor(db.jobs[j], rel);
    }
  }

  /** What the index has is in the table, at least as it was spelled. */
  ghost predicate SoundAsSpelled(db: Db, p: nat, pending: Pending) {
    forall rel, f :: Lookup(pending, rel, f) ==>
      var j := pending[rel][f];
      IsPending(db, p, j) && IsFor(db.jobs[j], rel) && db.jobs[j].function_ == f
  }

  lemma AgreementIsSound(db: Db, p: nat, pending: Pending)
    requires Agrees(db, p, pending)
    ensures SoundAsSpelled(db, p, pending)
  {
    hide IsPending;
    hide Names;
  }

  lemma OneStaysSound(s: Work, p: nat, cdb: CompileDb, r: Request, now: Time)
    requires IdsFresh(s.db) && SoundAsSpelled(s.db, p, s.pending)
    requires Normalize(r.file).Some? && r.function_ != Some("")
    ensures var t := Enqueued(s, p, cdb, r, now);
            SoundAsSpelled(t.db, p, t.pending)
  {
    hide Normalize;
    hide InCompileDb;
    var rel := Rel(r);
    NotedLookup(s.pending, rel, r.function_, s.db.nextJob);
    hide Noted;
    hide Names;
  }

  lemma {:induction false} StaysSound(s: Work, p: nat, cdb: CompileDb, rs: seq<Request>, now: Time)
    requires IdsFresh(s.db) && SoundAsSpelled(s.db, p, s.pending) && Readable(rs)
    requires forall k :: 0 <= k < |rs| ==> rs[k].function_ != Some("")
    ensures var t := EnqueueAll(s, p, cdb, rs, now);
            SoundAsSpelled(t.db, p, t.pending)
    decreases |rs|
  {
    hide SoundAsSpelled;
    hide Enqueued;
    if rs != [] {
      var front := rs[..|rs| - 1];
      StaysSound(s, p, cdb, front, now);
      EnqueueAdds(s, p, cdb, front, now);
      hide IdsFresh;
      OneStaysSound(EnqueueAll(s, p, cdb, front, now), p, cdb, rs[|rs| - 1], now);
    }
  }

  lemma AnsweredStays(s: Db, t: Db, p: nat, rel: string, function_: Option<string>)
    requires forall j :: j in s.jobs ==> j in t.jobs && t.jobs[j] == s.jobs[j]
    requires Answered(s, p, rel, function_)
    ensures Answered(t, p, rel, function_)
  {
    hide IsFor;
    hide Suits;
    var j :| IsPending(s, p, j) && IsFor(s.jobs[j], rel) && Suits(s.jobs[j], function_);
    assert IsPending(t, p, j);
  }

  /** A request for a file of the compile database is answered once it has been made. */
  lemma OneIsAnswered(s: Work, p: nat, cdb: CompileDb, r: Request, now: Time)
    requires SoundAsSpelled(s.db, p, s.pending) && Normalize(r.file).Some? && r.function_ != Some("")
    requires InCompileDb(cdb, Rel(r))
    ensures Answered(Enqueued(s, p, cdb, r, now).db, p, Rel(r), r.function_)
  {
    hide Normalize;
    hide Names;
    var rel := Rel(r);
    var t := Enqueued(s, p, cdb, r, now);
    if InIndex(s.pending, rel, r.function_) {
      var f :| f in s.pending[rel] && (r.function_.None? || f.None? || f == r.function_);
      assert Lookup(s.pending, rel, f);
      assert IsPending(t.db, p, s.pending[rel][f]);
    } else {
      assert IsPending(t.db, p, s.db.nextJob);
    }
  }

  /** Every request for a file of the compile database has a pending job in the end. */
  lemma {:induction false} AllAreAnswered(s: Work, p: nat, cdb: CompileDb, rs: seq<Request>, now: Time, k: nat)
    requires IdsFresh(s.db) && SoundAsSpelled(s.db, p, s.pending) && Readable(rs) && k < |rs|
    requires forall i :: 0 <= i < |rs| ==> rs[i].function_ != Some("")
    requires InCompileDb(cdb, Rel(rs[k]))
    ensures Answered(EnqueueAll(s, p, cdb, rs, now).db, p, Rel(rs[k]), rs[k].function_)
    decreases |rs|
  {
    hide Normalize;
    hide SoundAsSpelled;
    hide Answered;
    hide InCompileDb;
    hide Enqueued;
    var front := rs[..|rs| - 1];
    var t := EnqueueAll(s, p, cdb, front, now);
    EnqueueAdds(s, p, cdb, front, now);
    if k < |front| {
      AllAreAnswered(s, p, cdb, front, now, k);
      EnqueueAll1(t, p, cdb, rs[|rs| - 1], now);
      EnqueueAdds(t, p, cdb, [rs[|rs| - 1]], now);
      AnsweredStays(t.db, EnqueueAll(s, p, cdb, rs, now).db, p, Rel(rs[k]), rs[k].function_);
    } else {
      StaysSound(s, p, cdb, front, now);
      OneIsAnswered(t, p, cdb, rs[k], now);
    }
  }

  lemma {:induction false} EnqueueAll1(s: Work, p: nat, cdb: CompileDb, r: Request, now: Time)
    requires Normalize(r.file).Some?
    ensures EnqueueAll(s, p, cdb, [r], now) == Enqueued(s, p, cdb, r, now)
  {
    hide Enqueued;
    assert [r][..0] == [];
  }

  predicate Requests(p: nat, cdb: CompileDb, rs: seq<Request>, k: nat, job: Job, now: Time)
    requires Readable(rs) && k < |rs|
  {
    job == AutoJob(p, Rel(rs[k]), rs[k].function_, now) && InCompileDb(cdb, Rel(rs[k]))
  }

  /** Every new job was requested, for a file of the compile database. */
  lemma {:induction false} NewJobsWereRequested(s: Work, p: nat, cdb: CompileDb, rs: seq<Request>, now: Time, j: nat)
      returns (k: nat)
    requires IdsFresh(s.db) && Readable(rs)
    requires j in EnqueueAll(s, p, cdb, rs, now).db.jobs && j !in s.db.jobs
    ensures k < |rs| && Requests(p, cdb, rs, k, EnqueueAll(s, p, cdb, rs, now).db.jobs[j], now)
    decreases |rs|
  {
    hide Normalize;
    hide AutoJob;
    hide InCompileDb;
    var front := rs[..|rs| - 1];
    var t := EnqueueAll(s, p, cdb, front, now);
    EnqueueAdds(s, p, cdb, front, now);
    if j in t.db.jobs {
      k := NewJobsWereRequested(s, p, cdb, front, now, j);
      assert front[k] == rs[k];
    } else {
      k := |rs| - 1;
    }
  }

  /** To the tables, a scan or a diff is a preparation job that queues what it created. */
  lemma {:induction false} EnqueueIsBody(s: Work, p: nat, cdb: CompileDb, rs: seq<Request>, now: Time)
      returns (wanted: seq<AutoTick.Wanted>)
    requires Readable(rs)
    ensures EnqueueAll(s, p, cdb, rs, now).db == AutoTick.Queueing(s.db, p, wanted, now)
    decreases |rs|
  {
    hide Normalize;
    hide Skips;
    wanted := [];
    if rs != [] {
      var r := rs[|rs| - 1];
      var before := EnqueueIsBody(s, p, cdb, rs[..|rs| - 1], now);
      if Skips(EnqueueAll(s, p, cdb, rs[..|rs| - 1], now), cdb, Rel(r), r.function_) {
        wanted := before;
      } else {
        wanted := before + [AutoTick.Wanted(Rel(r), Given(r.function_))];
        assert wanted[..|before|] == before;
      }
    }
  }

  /** The requests for which the index keeps up with the table. */
  predicate Plain(rs: seq<Request>) {
    forall k :: 0 <= k < |rs| ==>
      Normalize(rs[k].file).Some? && Trimmed(Normalize(rs[k].file).value) && rs[k].function_ != Some("")
  }

  /** Throughout plain requests the index agrees with the table. */
  lemma {:induction false} AgreesThroughout(s: Work, p: nat, cdb: CompileDb, rs: seq<Request>, now: Time)
    requires IdsFresh(s.db) && Agrees(s.db, p, s.pending) && Plain(rs)
    ensures Agrees(EnqueueAll(s, p, cdb, rs, now).db, p, EnqueueAll(s, p, cdb, rs, now).pending)
    decreases |rs|
  {
    hide Normalize;
    hide Agrees;
    hide Trimmed;
    hide Enqueued;
    if rs != [] {
      var front := rs[..|rs| - 1];
      assert Plain(front);
      AgreesThroughout(s, p, cdb, front, now);
      EnqueueAdds(s, p, cdb, front, now);
      AgreementIsKeptExactly(EnqueueAll(s, p, cdb, front, now), p, cdb, rs[|rs| - 1], now);
    }
  }

  /** Of the file `rel`, the table has nothing that the index has not. */
  ghost predicate CompleteAt(db: Db, p: nat, pending: Pending, rel: string) {
    forall j :: IsPending(db, p, j) && Names(db.jobs[j], rel) ==> Lookup(pending, rel, db.jobs[j].function_)
  }

  lemma AgreementIsComplete(db: Db, p: nat, pending: Pending, rel: string)
    requires Agrees(db, p, pending)
    ensures CompleteAt(db, p, pending, rel)
  {
    hide IsPending;
    hide Names;
  }

  /** No request makes a job for a file that is spelled differently but read back as `rel`. */
  predicate SpelledAlike(rs: seq<Request>, rel: string)
    requires Readable(rs)
  {
    forall k :: 0 <= k < |rs| && Normalize(Rel(rs[k])) == Some(rel) ==> Rel(rs[k]) == rel
  }

  lemma OneStaysComplete(s: Work, p: nat, cdb: CompileDb, r: Request, now: Time, rel: string)
    requires IdsFresh(s.db) && CompleteAt(s.db, p, s.pending, rel)
    requires Normalize(r.file).Some? && r.function_ != Some("") && (Normalize(Rel(r)) == Some(rel) ==> Rel(r) == rel)
    ensures var t := Enqueued(s, p, cdb, r, now);
            CompleteAt(t.db, p, t.pending, rel)
  {
    hide Normalize;
    hide InCompileDb;
    hide InIndex;
    AutoJobNames(p, Rel(r), r.function_, now);
    NotedLookup(s.pending, Rel(r), r.function_, s.db.nextJob);
    hide Noted;
    hide Names;
  }

  lemma {:induction false} StaysComplete(s: Work, p: nat, cdb: CompileDb, rs: seq<Request>, now: Time, rel: string)
    requires IdsFresh(s.db) && CompleteAt(s.db, p, s.pending, rel) && Readable(rs) && SpelledAlike(rs, rel)
    requires forall k :: 0 <= k < |rs| ==> rs[k].function_ != Some("")
    ensures var t := EnqueueAll(s, p, cdb, rs, now);
            CompleteAt(t.db, p, t.pending, rel)
    decreases |rs|
  {
    hide Normalize;
    hide CompleteAt;
    hide Enqueued;
    if rs != [] {
      var front := rs[..|rs| - 1];
      StaysComplete(s, p, cdb, front, now, rel);
      EnqueueAdds(s, p, cdb, front, now);
      hide IdsFresh;
      OneStaysComplete(EnqueueAll(s, p, cdb, front, now), p, cdb, rs[|rs| - 1], now, rel);
    }
  }

  lemma NotIndexedNotServed(db: Db, p: nat, pending: Pending, rel: string, function_: Option<string>, i: nat)
    requires CompleteAt(db, p, pending, rel) && !InIndex(pending, rel, function_) && IsPending(db, p, i)
    ensures !Serves(db.jobs[i], rel, function_)
  {
    hide Names;
    assert Names(db.jobs[i], rel) ==> Lookup(pending, rel, db.jobs[i].function_);
  }

  /** No new job for the file `rel` is for what an older pending job of the product already does; in
      particular no two are for the same function. */
  lemma {:induction false} NoDuplicates(s: Work, p: nat, cdb: CompileDb, rs: seq<Request>, now: Time, rel: string,
      i: nat, j: nat)
    requires IdsFresh(s.db) && CompleteAt(s.db, p, s.pending, rel) && Readable(rs) && SpelledAlike(rs, rel)
    requires forall k :: 0 <= k < |rs| ==> rs[k].function_ != Some("")
    requires var t := EnqueueAll(s, p, cdb, rs, now);
             j in t.db.jobs && j !in s.db.jobs && t.db.jobs[j].files == [rel] && i < j && IsPending(t.db, p, i)
    ensures var t := EnqueueAll(s, p, cdb, rs, now);
            !Serves(t.db.jobs[i], rel, t.db.jobs[j].function_)
    decreases |rs|
  {
    hide Normalize;
    hide CompleteAt;
    hide Serves;
    hide SpelledAlike;
    hide InIndex;
    hide Noted;
    var front, r := rs[..|rs| - 1], rs[|rs| - 1];
    var t := EnqueueAll(s, p, cdb, front, now);
    FrontSpelledAlike(rs, rel);
    EnqueueAdds(s, p, cdb, front, now);
    if j in t.db.jobs {
      NoDuplicates(s, p, cdb, front, now, rel, i, j);
    } else {
      StaysComplete(s, p, cdb, front, now, rel);
      NotIndexedNotServed(t.db, p, t.pending, rel, r.function_, i);
    }
  }

  lemma FrontSpelledAlike(rs: seq<Request>, rel: string)
    requires Readable(rs) && SpelledAlike(rs, rel) && rs != []
    ensures Readable(rs[..|rs| - 1]) && SpelledAlike(rs[..|rs| - 1], rel)
  {
    hide Normalize;
  }
}

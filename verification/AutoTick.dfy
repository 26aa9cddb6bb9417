/** The periodic auto mode: queueing cycles, and starting and finishing preparation jobs. */
module AutoTick {
  import opened Database
  import opened Engine

  // ---- Cycles ----

  predicate UnfinishedPrep(db: Db, p: nat) {
    exists j :: j in db.jobs && db.jobs[j].product == p && db.jobs[j].kind.Prep() && !db.jobs[j].status.Terminal()
  }

  /** The diff job is made first, so that it gets the smaller id. */
  function EnqueuePair(db: Db, p: nat, now: Time): Db
    requires p in db.products
  {
    var diff := NewJob(p, AutoDiff, Auto, None, [], now);
    var scan := NewJob(p, AutoScan, Auto, None, [], now);
    db.(jobs := db.jobs[db.nextJob := diff][db.nextJob + 1 := scan],
        nextJob := db.nextJob + 2,
        products := db.products[p := db.products[p].(lastAutoRun := Some(now))])
  }

  function Cycle(db: Db, p: nat, now: Time): Db
    requires p in db.products
  {
    if UnfinishedPrep(db, p) then db else EnqueuePair(db, p, now)
  }

  /** `_enqueue_cycle`; the caller commits. */
  method EnqueueCycle(session: Session, p: nat, now: Time) returns (created: seq<nat>)
    requires p in session.products
    modifies session
    ensures session.View() == Cycle(old(session.View()), p, now) && session.committed == old(session.committed)
    ensures created == if UnfinishedPrep(old(session.View()), p) then []
                       else [old(session.nextJob), old(session.nextJob) + 1]
  {
    if UnfinishedPrep(session.View(), p) {
      return [];
    }
    created := [];
    var diff := session.AddJob(NewJob(p, AutoDiff, Auto, None, [], now));
    created := created + [diff];
    var scan := session.AddJob(NewJob(p, AutoScan, Auto, None, [], now));
    created := created + [scan];
    session.products := session.products[p := session.products[p].(lastAutoRun := Some(now))];
  }

  /** `enqueue_cycle_now`. */
  method EnqueueCycleNow(session: Session, p: nat, now: Time) returns (created: seq<nat>)
    requires session.Clean() && p in session.products
    modifies session
    ensures session.Clean() && session.View() == Cycle(old(session.View()), p, now)
    ensures created == Numbers(old(session.nextJob), session.nextJob)
  {
    CycleNumbers(session.View(), p, now, session.nextJob);
    created := EnqueueCycle(session, p, now);
    session.Commit();
  }

  predicate Due(product: Product, now: Time) {
    && product.autoRun && product.active
    && product.interval.Some? && product.interval.value > 0
    && (product.lastAutoRun.None? || now - product.lastAutoRun.value >= product.interval.value)
  }

  function DueProducts(db: Db, now: Time): set<nat> {
    set p | p in db.products && Due(db.products[p], now)
  }

  /** Cycles for the products of `order`, one after the other. */
  function Cycles(db: Db, now: Time, order: seq<nat>): (r: Db)
    requires forall p :: p in order ==> p in db.products
    ensures r.products.Keys == db.products.Keys && r.workers == db.workers && r.locks == db.locks
    ensures forall p :: p in db.products && p !in order ==> r.products[p] == db.products[p]
    ensures r.nextJob >= db.nextJob
  {
    if order == [] then db
    else Cycle(Cycles(db, now, order[..|order| - 1]), order[|order| - 1], now)
  }

  /** Every due product once, in whatever order. */
  ghost predicate InSomeOrder(db: Db, now: Time, order: seq<nat>) {
    && (forall p :: p in order <==> p in DueProducts(db, now))
    && (forall i, k :: 0 <= i < k < |order| ==> order[i] != order[k])
  }

  function Numbers(from: nat, to: nat): seq<nat>
    decreases to
  {
    if from >= to then [] else Numbers(from, to - 1) + [to - 1]
  }

  /** `enqueue_due_cycles`. */
  method EnqueueDueCycles(session: Session, now: Time) returns (created: seq<nat>, ghost order: seq<nat>)
    requires session.Clean()
    modifies session
    ensures session.Clean() && InSomeOrder(old(session.View()), now, order)
    ensures session.View() == Cycles(old(session.View()), now, order)
    ensures created == Numbers(old(session.nextJob), session.nextJob)
  {
    hide Cycle;
    hide Cycles;
    hide Numbers;
    hide UnfinishedPrep;
    hide Visited;
    hide InSomeOrder;
    ghost var s := session.View();
    created, order := [], [];
    NothingVisited(s, now);
    CyclesNone(s, now);
    var todo := session.products.Keys;
    while todo != {}
      invariant todo <= s.products.Keys && Visited(s, now, todo, order)
      invariant forall p :: p in order ==> p in s.products && p !in todo
      invariant session.View() == Cycles(s, now, order) && session.committed == s
      invariant created == Numbers(s.nextJob, session.nextJob)
      decreases |todo|
    {
      var p :| p in todo;
      VisitNext(s, now, todo, order, p);
      todo := todo - {p};
      var product := session.products[p];
      if product.autoRun && product.active && product.interval.Some? && product.interval.value > 0 {
        if product.lastAutoRun.Some? && now - product.lastAutoRun.value < product.interval.value {
          continue;
        }
        CycleNumbers(session.View(), p, now, s.nextJob);
        CyclesSnoc(s, now, order, p);
        var pair := EnqueueCycle(session, p, now);
        created := created + pair;
        order := order + [p];
      }
    }
    AllVisited(s, now, order);
    session.Commit();
  }

  /** The due products outside of `todo`, once each. */
  ghost predicate Visited(db: Db, now: Time, todo: set<nat>, order: seq<nat>) {
    && (forall p :: p in order <==> p in DueProducts(db, now) && p !in todo)
    && (forall i, k :: 0 <= i < k < |order| ==> order[i] != order[k])
  }

  lemma NothingVisited(db: Db, now: Time)
    ensures Visited(db, now, db.products.Keys, [])
  {
  }

  lemma VisitNext(db: Db, now: Time, todo: set<nat>, order: seq<nat>, p: nat)
    requires Visited(db, now, todo, order) && p in todo && p in db.products
    ensures Due(db.products[p], now) ==> Visited(db, now, todo - {p}, order + [p])
    ensures !Due(db.products[p], now) ==> Visited(db, now, todo - {p}, order)
  {
    hide Due;
  }

  lemma AllVisited(db: Db, now: Time, order: seq<nat>)
    requires Visited(db, now, {}, order)
    ensures InSomeOrder(db, now, order)
  {
  }

  lemma {:induction false} CyclesNone(db: Db, now: Time)
    ensures Cycles(db, now, []) == db && Numbers(db.nextJob, db.nextJob) == []
  {
  }

  lemma {:induction false} CyclesSnoc(db: Db, now: Time, order: seq<nat>, p: nat)
    requires p in db.products && forall q :: q in order ==> q in db.products
    ensures forall q :: q in order + [p] ==> q in db.products
    ensures Cycles(db, now, order + [p]) == Cycle(Cycles(db, now, order), p, now)
  {
    assert (order + [p])[..|order|] == order;
  }

  /** A cycle takes the next two ids, or none. */
  lemma {:induction false} CycleNumbers(db: Db, p: nat, now: Time, from: nat)
    requires p in db.products && from <= db.nextJob
    ensures Numbers(from, Cycle(db, p, now).nextJob) ==
            Numbers(from, db.nextJob) + (if UnfinishedPrep(db, p) then [] else [db.nextJob, db.nextJob + 1])
  {
    if !UnfinishedPrep(db, p) {
      assert Numbers(from, db.nextJob + 2) == Numbers(from, db.nextJob) + [db.nextJob] + [db.nextJob + 1];
    }
  }

  // ---- Starting preparation jobs ----

  predicate PrepCandidate(db: Db, j: nat) {
    HasKey(db, j) && db.jobs[j].status == Queued && db.jobs[j].kind.Prep()
  }

  function PrepCandidates(db: Db): set<nat> {
    set j | j in db.jobs && PrepCandidate(db, j)
  }

  /** The oldest queued preparation job of a key that is not busy. */
  predicate PrepChampion(db: Db, j: nat) {
    && PrepCandidate(db, j)
    && KeyOf(db, j) !in BusyKeys(db)
    && forall i :: i in db.jobs && PrepCandidate(db, i) && KeyOf(db, i) == KeyOf(db, j) ==> j <= i
  }

  function Started(job: Job, now: Time): Job {
    job.(status := Running, startedAt := Some(now))
  }

  /** All champions are started. */
  function StartPrep(db: Db, now: Time): Db {
    db.(jobs := map j | j in db.jobs :: if PrepChampion(db, j) then Started(db.jobs[j], now) else db.jobs[j])
  }

  predicate Ascending(ids: seq<nat>) {
    forall i, k :: 0 <= i < k < |ids| ==> ids[i] < ids[k]
  }

  lemma {:induction false} Least(s: set<nat>) returns (m: nat)
    requires s != {}
    ensures m in s && forall x :: x in s ==> m <= x
    decreases |s|
  {
    var x :| x in s;
    assert s == (s - {x}) + {x};
    if s - {x} == {} {
      m := x;
    } else {
      var rest := Least(s - {x});
      m := if x <= rest then x else rest;
    }
  }

  /** `ORDER BY id`. */
  method QueryPrepCandidates(db: Db) returns (ids: seq<nat>)
    ensures Ascending(ids) && Lists(ids, PrepCandidates(db))
  {
    ids := [];
    var todo := PrepCandidates(db);
    while todo != {}
      invariant todo <= PrepCandidates(db) && Lists(ids, PrepCandidates(db) - todo) && Ascending(ids)
      invariant forall x, y :: x in ids && y in todo ==> x < y
      decreases |todo|
    {
      ghost var m := Least(todo);
      var j :| j in todo && forall x :: x in todo ==> j <= x;
      assert forall i :: 0 <= i < |ids| ==> ids[i] in ids;
      ids := ids + [j];
      todo := todo - {j};
    }
  }

  /** The champions among the first `k` candidates, which have been started. */
  ghost predicate StartedUpTo(db: Db, now: Time, candidates: seq<nat>, k: nat, picked: seq<nat>, jobs: map<nat, Job>)
    requires k <= |candidates|
  {
    && Ascending(picked)
    && (forall j :: j in picked <==> j in candidates[..k] && PrepChampion(db, j))
    && jobs == map j | j in db.jobs :: if j in picked then Started(db.jobs[j], now) else db.jobs[j]
  }

  lemma PrepCandidateIsChampion(db: Db, candidates: seq<nat>, k: nat, busy: set<Key>)
    requires k < |candidates| && Ascending(candidates) && Lists(candidates, PrepCandidates(db))
    requires forall i :: 0 <= i < |candidates| ==> HasKey(db, candidates[i])
    requires SeenUpTo(db, candidates, k, busy)
    ensures KeyOf(db, candidates[k]) !in busy <==> PrepChampion(db, candidates[k])
  {
    var j := candidates[k];
    assert j in candidates;
    if KeyOf(db, j) !in busy {
      forall i | i in db.jobs && PrepCandidate(db, i) && KeyOf(db, i) == KeyOf(db, j) ensures j <= i {
        assert i in candidates;
        var n :| 0 <= n < |candidates| && candidates[n] == i;
        assert n >= k;
      }
    } else if KeyOf(db, j) !in BusyKeys(db) {
      var i :| 0 <= i < k && KeyOf(db, candidates[i]) == KeyOf(db, j);
      assert candidates[i] in candidates;
    }
  }

  /** `claim_prep_jobs`. */
  method ClaimPrepJobs(session: Session, now: Time) returns (picked: seq<nat>)
    requires session.Clean()
    modifies session
    ensures session.Clean() && session.View() == StartPrep(old(session.View()), now)
    ensures Ascending(picked) && forall j :: j in picked <==> PrepChampion(old(session.View()), j)
  {
    hide PrepChampion;
    hide BusyKeys;
    ghost var s := session.View();
    var busy := BusyKeys(session.View());
    var candidates := QueryPrepCandidates(session.View());
    forall i | 0 <= i < |candidates| ensures HasKey(s, candidates[i]) {
      assert candidates[i] in candidates;
    }
    picked := [];
    assert session.jobs == map j | j in s.jobs :: s.jobs[j];
    for k := 0 to |candidates|
      invariant session.committed == s && session.View() == s.(jobs := session.jobs)
      invariant SeenUpTo(s, candidates, k, busy)
      invariant StartedUpTo(s, now, candidates, k, picked, session.jobs)
    {
      var j := candidates[k];
      PrepCandidateIsChampion(s, candidates, k, busy);
      assert candidates[..k + 1] == candidates[..k] + [j];
      if KeyOf(session.committed, j) in busy {
        continue;
      }
      StartNext(s, now, candidates, k, picked, session.jobs);
      busy := busy + {KeyOf(session.committed, j)};
      session.jobs := session.jobs[j := session.jobs[j].(status := Running, startedAt := Some(now))];
      picked := picked + [j];
    }
    assert candidates[..|candidates|] == candidates;
    forall j | PrepChampion(s, j) ensures j in picked {
      ChampionIsCandidate(s, j);
      assert j in candidates;
    }
    session.Commit();
  }

  lemma ChampionIsCandidate(db: Db, j: nat)
    requires PrepChampion(db, j)
    ensures j in PrepCandidates(db)
  {
  }

  lemma StartNext(db: Db, now: Time, candidates: seq<nat>, k: nat, picked: seq<nat>, jobs: map<nat, Job>)
    requires k < |candidates| && Ascending(candidates) && HasKey(db, candidates[k])
    requires StartedUpTo(db, now, candidates, k, picked, jobs) && PrepChampion(db, candidates[k])
    ensures candidates[k] in jobs && jobs[candidates[k]] == db.jobs[candidates[k]]
    ensures StartedUpTo(db, now, candidates, k + 1, picked + [candidates[k]],
                        jobs[candidates[k] := Started(jobs[candidates[k]], now)])
  {
    hide PrepChampion;
    var j := candidates[k];
    assert candidates[..k + 1] == candidates[..k] + [j];
    forall x | x in picked ensures x < j {
      assert x in candidates[..k];
    }
    assert forall i :: 0 <= i < |picked| ==> picked[i] in picked;
    assert Ascending(picked + [j]);
  }

  // ---- Finishing preparation jobs ----

  /** Written over whatever status the job has by then; a deleted job has no row to write. */
  function FinishPrep(db: Db, j: nat, status: Status, summary: Option<string>, error: Option<string>, now: Time): Db {
    if j !in db.jobs then db
    else
      var job := db.jobs[j];
      db.(jobs := db.jobs[j := job.(status := status, finishedAt := Some(now),
                                    summary := OrElse(summary, job.summary), error := OrElse(error, job.error))])
  }

  method FinishPrepJob(session: Session, j: nat, status: Status, summary: Option<string>, error: Option<string>,
      now: Time)
    requires session.Clean()
    modifies session
    ensures session.Clean() && session.View() == FinishPrep(old(session.View()), j, status, summary, error, now)
  {
    if j !in session.jobs {
      return;
    }
    var job := session.jobs[j];
    job := job.(status := status, finishedAt := Some(now));
    if summary.Some? {
      job := job.(summary := summary);
    }
    if error.Some? {
      job := job.(error := error);
    }
    session.jobs := session.jobs[j := job];
    session.Commit();
  }

  /** A GENUT job that the body of a preparation job queues. */
  datatype Wanted = Wanted(file: string, function_: Option<string>)

  /** What the body of a preparation job did: the jobs it queued, the base commit it set, whether a
      cancel request was pending at its end, and how it ended. */
  datatype PrepRun = PrepRun(wanted: seq<Wanted>, base: Option<string>, canceled: bool, result: PrepResult)
  datatype PrepResult = Summary(text: string) | CanceledByUser | Crashed(message: string)

  /** A cancel request counts before everything else. */
  function FinishRun(db: Db, j: nat, run: PrepRun, now: Time): Db {
    if run.canceled || run.result.CanceledByUser? then FinishPrep(db, j, Canceled, None, Some("canceled"), now)
    else if run.result.Crashed? then FinishPrep(db, j, Failed, None, Some(run.result.message), now)
    else FinishPrep(db, j, Done, Some(run.result.text), None, now)
  }

  /** A body that was canceled leaves a canceled job, else one that crashed a failed job with its message,
      and else the job is done with the summary; no other row changes. */
  lemma FinishRunWritesRow(db: Db, j: nat, run: PrepRun, now: Time)
    requires j in db.jobs
    ensures var t, was := FinishRun(db, j, run, now), db.jobs[j];
            && t.jobs.Keys == db.jobs.Keys && (forall i :: i in db.jobs && i != j ==> t.jobs[i] == db.jobs[i])
            && t == db.(jobs := t.jobs)
            && var row := t.jobs[j];
               && (row.status == Canceled <==> run.canceled || run.result.CanceledByUser?)
               && (row.status == Failed <==> !run.canceled && run.result.Crashed?)
               && (row.status == Done <==> !run.canceled && !run.result.CanceledByUser? && !run.result.Crashed?)
               && (row.status == Failed ==> row.error == Some(run.result.message) && row.summary == was.summary)
               && (row.status == Done ==> row.summary == Some(run.result.text) && row.error == was.error)
               && row == was.(status := row.status, summary := row.summary, error := row.error,
                              finishedAt := Some(now))
  {
  }

  function Queueing(db: Db, p: nat, wanted: seq<Wanted>, now: Time): (r: Db)
    ensures r.products == db.products
  {
    if wanted == [] then db
    else
      var before, w := Queueing(db, p, wanted[..|wanted| - 1], now), wanted[|wanted| - 1];
      before.(jobs := before.jobs[before.nextJob := NewJob(p, Genut, Auto, w.function_, [w.file], now)],
              nextJob := before.nextJob + 1)
  }

  /** What the body leaves behind. */
  function Body(db: Db, p: nat, run: PrepRun, now: Time): Db
    requires p in db.products
  {
    var queued := Queueing(db, p, run.wanted, now);
    if run.base.None? then queued
    else queued.(products := queued.products[p := queued.products[p].(lastScanned := run.base)])
  }

  /** A body that moves the base moves that of its product only, and writes nothing else of any product. */
  lemma BodyMovesBase(db: Db, p: nat, run: PrepRun, now: Time)
    requires p in db.products
    ensures var t := Body(db, p, run, now);
            && t.products.Keys == db.products.Keys
            && (forall q :: q in db.products && q != p ==> t.products[q] == db.products[q])
            && t.products[p] == db.products[p].(lastScanned := t.products[p].lastScanned)
            && t.products[p].lastScanned == if run.base.Some? then run.base else db.products[p].lastScanned
  {
  }

  /** `process_prep_job` around its body. */
  method ProcessPrepJob(session: Session, j: nat, run: PrepRun, now: Time)
    requires session.Clean()
    modifies session
    ensures session.Clean()
    ensures var s := old(session.View());
            session.View() ==
            if j !in s.jobs || s.jobs[j].status != Running then s
            else if s.jobs[j].product !in s.products then FinishPrep(s, j, Failed, None, Some("no product"), now)
            else FinishRun(Body(s, s.jobs[j].product, run, now), j, run, now)
  {
    hide FinishPrep;
    if j !in session.jobs || session.jobs[j].status != Running {
      return;
    }
    var job := session.jobs[j];
    if job.product !in session.products {
      FinishPrepJob(session, j, Failed, None, Some("no product"), now);
      return;
    }
    RunBody(session, job.product, run, now);
    if run.canceled || run.result.CanceledByUser? {
      FinishPrepJob(session, j, Canceled, None, Some("canceled"), now);
    } else if run.result.Crashed? {
      FinishPrepJob(session, j, Failed, None, Some(run.result.message), now);
    } else {
      FinishPrepJob(session, j, Done, Some(run.result.text), None, now);
    }
  }

  method RunBody(session: Session, p: nat, run: PrepRun, now: Time)
    requires session.Clean() && p in session.products
    modifies session
    ensures session.Clean() && session.View() == Body(old(session.View()), p, run, now)
  {
    ghost var s := session.View();
    for k := 0 to |run.wanted|
      invariant session.Clean() && session.View() == Queueing(s, p, run.wanted[..k], now)
    {
      assert run.wanted[..k + 1][..k] == run.wanted[..k];
      var id := session.AddJob(NewJob(p, Genut, Auto, run.wanted[k].function_, [run.wanted[k].file], now));
      session.Commit();
    }
    assert run.wanted[..|run.wanted|] == run.wanted;
    if run.base.Some? {
      session.products := session.products[p := session.products[p].(lastScanned := run.base)];
      session.Commit();
    }
  }

  // ---- Draining ----

  lemma {:induction false} CyclesKeepIdsFresh(db: Db, now: Time, order: seq<nat>)
    requires IdsFresh(db) && forall p :: p in order ==> p in db.products
    ensures IdsFresh(Cycles(db, now, order))
    decreases |order|
  {
    if order != [] {
      CyclesKeepIdsFresh(db, now, order[..|order| - 1]);
    }
  }

  /** The queue of preparation jobs does not grow; with fresh ids it stays as it is. */
  ghost predicate QueueStays(db: Db, t: Db) {
    && PrepCandidates(t) <= PrepCandidates(db)
    && (IdsFresh(db) ==> IdsFresh(t) && PrepCandidates(t) == PrepCandidates(db))
  }

  lemma {:induction false} QueueingLeavesPreps(db: Db, p: nat, wanted: seq<Wanted>, now: Time)
    ensures QueueStays(db, Queueing(db, p, wanted, now))
    decreases |wanted|
  {
    if wanted != [] {
      QueueingLeavesPreps(db, p, wanted[..|wanted| - 1], now);
    }
  }

  lemma {:induction false} BodyLeavesPreps(db: Db, p: nat, run: PrepRun, now: Time)
    requires p in db.products
    ensures QueueStays(db, Body(db, p, run, now))
  {
    QueueingLeavesPreps(db, p, run.wanted, now);
    hide Queueing;
    var queued := Queueing(db, p, run.wanted, now);
    assert forall j :: PrepCandidate(Body(db, p, run, now), j) <==> PrepCandidate(queued, j);
  }

  /** Finishing a job takes it out of the queue, in which a started one is not. */
  lemma FinishRunLeavesPreps(db: Db, j: nat, run: PrepRun, now: Time)
    ensures PrepCandidates(FinishRun(db, j, run, now)) == PrepCandidates(db) - {j}
    ensures PrepCandidates(FinishPrep(db, j, Failed, None, Some("no product"), now)) == PrepCandidates(db) - {j}
    ensures IdsFresh(db) ==> IdsFresh(FinishRun(db, j, run, now))
    ensures IdsFresh(db) ==> IdsFresh(FinishPrep(db, j, Failed, None, Some("no product"), now))
  {
  }

  /** Starting takes the champions, and only them, out of the queue. */
  lemma StartPrepQueue(db: Db, now: Time)
    ensures forall j :: PrepCandidate(StartPrep(db, now), j) <==> PrepCandidate(db, j) && !PrepChampion(db, j)
  {
  }

  /** Only jobs whose key is busy have no champion in front of them. */
  lemma LeftoversAreBusy(db: Db, now: Time)
    requires forall j :: !PrepChampion(db, j)
    ensures StartPrep(db, now) == db
    ensures forall j :: PrepCandidate(db, j) ==> KeyOf(db, j) in BusyKeys(db)
  {
    assert db.jobs == map j | j in db.jobs :: db.jobs[j];
    forall j | PrepCandidate(db, j) ensures KeyOf(db, j) in BusyKeys(db) {
      var s := set i | i in db.jobs && PrepCandidate(db, i) && KeyOf(db, i) == KeyOf(db, j);
      assert j in s;
      var first := Least(s);
      assert forall i :: i in db.jobs && PrepCandidate(db, i) && KeyOf(db, i) == KeyOf(db, first) ==> i in s;
      assert !PrepChampion(db, first);
    }
  }

  /** `run_auto_pending`: ends, leaves only preparation jobs whose key is busy, and returns how many left
      the queue. `run` says how the body of each job ends. */
  method RunAutoPending(session: Session, now: Time, run: nat -> PrepRun)
      returns (processed: nat, ghost order: seq<nat>)
    requires session.Clean()
    modifies session
    ensures session.Clean() && InSomeOrder(old(session.View()), now, order)
    ensures processed + |PrepCandidates(session.View())| <= |PrepCandidates(Cycles(old(session.View()), now, order))|
    ensures IdsFresh(old(session.View())) ==>
              processed + |PrepCandidates(session.View())| == |PrepCandidates(Cycles(old(session.View()), now, order))|
    ensures forall j :: PrepCandidate(session.View(), j) ==> KeyOf(session.View(), j) in BusyKeys(session.View())
  {
    hide PrepChampion;
    hide PrepCandidate;
    hide PrepCandidates;
    hide BusyKeys;
    hide StartPrep;
    hide Body;
    hide FinishRun;
    hide FinishPrep;
    hide Cycles;
    hide IdsFresh;
    ghost var was := session.View();
    var created;
    created, order := EnqueueDueCycles(session, now);
    if IdsFresh(was) {
      CyclesKeepIdsFresh(was, now, order);
    }
    hide InSomeOrder;
    hide DueProducts;
    processed := 0;
    while true
      invariant session.Clean() && forall p :: p in order ==> p in was.products
      invariant processed + |PrepCandidates(session.View())| <= |PrepCandidates(Cycles(was, now, order))|
      invariant IdsFresh(was) ==>
                  && IdsFresh(session.View())
                  && processed + |PrepCandidates(session.View())| == |PrepCandidates(Cycles(was, now, order))|
      decreases |PrepCandidates(session.View())|
    {
      ghost var s := session.View();
      var picked := ClaimPrepJobs(session, now);
      if picked == [] {
        LeftoversAreBusy(s, now);
        break;
      }
      PickedWereQueued(s, now, picked[0]);
      PickedAreCounted(s, now, picked);
      StartedAreNotQueued(s, now);
      for k := 0 to |picked|
        invariant session.Clean() && QueueStays(StartPrep(s, now), session.View())
      {
        ghost var t := session.View();
        var j := picked[k];
        if j in session.jobs {
          if t.jobs[j].product in t.products {
            BodyLeavesPreps(t, t.jobs[j].product, run(j), now);
            FinishRunLeavesPreps(Body(t, t.jobs[j].product, run(j), now), j, run(j), now);
          }
          FinishRunLeavesPreps(t, j, run(j), now);
        }
        ProcessPrepJob(session, j, run(j), now);
      }
      SubsetSize(PrepCandidates(session.View()), PrepCandidates(StartPrep(s, now)));
      processed := processed + |picked|;
    }
  }

  lemma StartedAreNotQueued(db: Db, now: Time)
    ensures forall j :: PrepChampion(db, j) ==> j !in PrepCandidates(StartPrep(db, now))
    ensures IdsFresh(db) ==> IdsFresh(StartPrep(db, now))
  {
    hide BusyKeys;
  }

  function Members(ids: seq<nat>): set<nat> {
    set j | j in ids
  }

  lemma {:induction false} AscendingSize(ids: seq<nat>)
    requires Ascending(ids)
    ensures |Members(ids)| == |ids|
    decreases |ids|
  {
    if ids != [] {
      var front, last := ids[..|ids| - 1], ids[|ids| - 1];
      AscendingSize(front);
      assert last !in Members(front);
      assert ids == front + [last];
      assert Members(ids) == Members(front) + {last};
    }
  }

  lemma CandidatesAre(db: Db)
    ensures forall j :: j in PrepCandidates(db) <==> PrepCandidate(db, j)
  {
  }

  lemma QueueSplits(db: Db, now: Time, picked: seq<nat>)
    requires forall j :: j in picked <==> PrepChampion(db, j)
    ensures PrepCandidates(db) == PrepCandidates(StartPrep(db, now)) + Members(picked)
    ensures PrepCandidates(StartPrep(db, now)) * Members(picked) == {}
  {
    StartPrepQueue(db, now);
    forall j | j in picked ensures j in PrepCandidates(db) {
      ChampionIsCandidate(db, j);
    }
    CandidatesAre(db);
    CandidatesAre(StartPrep(db, now));
    hide StartPrep;
    hide PrepCandidate;
    hide PrepChampion;
    hide PrepCandidates;
  }

  /** What is picked leaves the queue, one by one. */
  lemma PickedAreCounted(db: Db, now: Time, picked: seq<nat>)
    requires Ascending(picked) && forall j :: j in picked <==> PrepChampion(db, j)
    ensures |picked| + |PrepCandidates(StartPrep(db, now))| == |PrepCandidates(db)|
  {
    AscendingSize(picked);
    QueueSplits(db, now, picked);
    hide *;
    var left := PrepCandidates(StartPrep(db, now));
    assert |left + Members(picked)| == |left| + |Members(picked)|;
  }

  lemma PickedWereQueued(db: Db, now: Time, j: nat)
    requires PrepChampion(db, j)
    ensures |PrepCandidates(StartPrep(db, now))| < |PrepCandidates(db)|
  {
    hide BusyKeys;
    StartPrepQueue(db, now);
    var after := PrepCandidates(StartPrep(db, now));
    assert j in PrepCandidates(db) && j !in after;
    SubsetSize(after, PrepCandidates(db) - {j});
  }
}

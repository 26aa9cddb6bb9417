/** What every operation on the tables keeps. */
module Invariant {
  import opened Database
  import opened Engine
  import opened AutoTick
  import opened Janitor
  import opened Services

  /** Each job row on its own. */
  predicate RowOk(job: Job) {
    && (job.status == Queued || job.status == Running || job.status.Terminal())
    && (job.status == Queued ==> job.worker.None? && job.startedAt.None?)
    && (job.status == Running ==> job.startedAt.Some?)
    && (job.kind.Prep() ==> job.worker.None?)
  }

  ghost predicate Rows(db: Db) {
    && (forall j :: j in db.jobs ==> j < db.nextJob && db.jobs[j].product in db.products && RowOk(db.jobs[j]))
    && (forall p :: p in db.locks ==> p in db.products && db.locks[p].job < db.nextJob)
    && (forall w :: w in db.workers ==> db.workers[w].status == Idle || db.workers[w].status == Busy)
    && (forall w :: w in db.workers && db.workers[w].current.Some? ==> db.workers[w].current.value < db.nextJob)
  }

  predicate RunningGenut(db: Db, j: nat) {
    j in db.jobs && db.jobs[j].status == Running && db.jobs[j].kind == Genut
  }

  predicate IsRunning(db: Db, j: nat) {
    j in db.jobs && db.jobs[j].status == Running
  }

  /** A running GENUT job has a busy worker and the lock of its product. */
  predicate Holds(db: Db, j: nat)
    requires j in db.jobs
  {
    var job := db.jobs[j];
    && job.worker.Some? && job.worker.value in db.workers
    && db.workers[job.worker.value].status == Busy && db.workers[job.worker.value].current == Some(j)
    && job.startedAt.Some?
    && job.product in db.locks && db.locks[job.product] == Lock(j, job.worker.value, job.startedAt.value)
  }

  ghost predicate Held(db: Db) {
    forall j :: RunningGenut(db, j) ==> Holds(db, j)
  }

  /** A lock belongs to a running GENUT job of its product, unless its job has ended. */
  ghost predicate LocksOwned(db: Db) {
    forall p :: p in db.locks ==>
      var j := db.locks[p].job;
      Gone(db, j) || (RunningGenut(db, j) && db.jobs[j].product == p)
  }

  /** A busy worker works on a running GENUT job assigned to it, unless its job has ended. */
  ghost predicate WorkersOwned(db: Db) {
    forall w :: w in db.workers && db.workers[w].status == Busy ==>
      && db.workers[w].current.Some?
      && var j := db.workers[w].current.value;
         Gone(db, j) || (RunningGenut(db, j) && db.jobs[j].worker == Some(w))
  }

  /** Two running jobs, of whatever kind, never have the same key. */
  ghost predicate Exclusive(db: Db) {
    forall i, j :: IsRunning(db, i) && IsRunning(db, j) && i != j && HasKey(db, i) && HasKey(db, j) ==>
      KeyOf(db, i) != KeyOf(db, j)
  }

  /** A preparation job is not started while an older one of its product is queued. */
  ghost predicate InOrder(db: Db) {
    forall i, j :: i in db.jobs && j in db.jobs && i < j
                   && db.jobs[i].kind.Prep() && db.jobs[j].kind.Prep() && db.jobs[i].product == db.jobs[j].product
                   && db.jobs[j].startedAt.Some? ==>
      db.jobs[i].status != Queued
  }

  ghost predicate Inv(db: Db) {
    Rows(db) && Held(db) && LocksOwned(db) && WorkersOwned(db) && Exclusive(db) && InOrder(db)
  }

  lemma Together(db: Db)
    requires Rows(db) && Held(db) && LocksOwned(db) && WorkersOwned(db) && Exclusive(db) && InOrder(db)
    ensures Inv(db)
  {
    hide Rows;
    hide Held;
    hide LocksOwned;
    hide WorkersOwned;
    hide Exclusive;
    hide InOrder;
  }

  // ---- Changes that stop no GENUT job and start no job ----

  lemma ExclusiveShrinks(db: Db, t: Db)
    requires Exclusive(db)
    requires forall i :: IsRunning(t, i) ==> IsRunning(db, i) && t.jobs[i].product == db.jobs[i].product
    requires forall p :: p in t.products ==> p in db.products && t.products[p].key == db.products[p].key
    ensures Exclusive(t)
  {
  }

  /** The jobs that locks and workers name have been created. */
  ghost predicate Named(db: Db) {
    && (forall p :: p in db.locks ==> db.locks[p].job < db.nextJob)
    && (forall w :: w in db.workers && db.workers[w].current.Some? ==> db.workers[w].current.value < db.nextJob)
  }

  lemma RowsAreNamed(db: Db)
    requires Rows(db)
    ensures Named(db)
  {
  }

  /** What is held is kept if the running GENUT rows, the locks and the busy workers stay as they are,
      and ended jobs stay ended. */
  lemma HoldingsKeep(db: Db, t: Db)
    requires Named(db) && Held(db) && LocksOwned(db) && WorkersOwned(db) && t.locks == db.locks
    requires forall w :: w in db.workers ==>
               && w in t.workers
               && t.workers[w].status == db.workers[w].status && t.workers[w].current == db.workers[w].current
    requires forall w :: w in t.workers && t.workers[w].status == Busy ==> w in db.workers
    requires forall i :: RunningGenut(t, i) <==> RunningGenut(db, i)
    requires forall i :: RunningGenut(t, i) && RunningGenut(db, i) ==> t.jobs[i] == db.jobs[i]
    requires forall i: nat :: i < db.nextJob && Gone(db, i) ==> Gone(t, i)
    ensures Held(t) && LocksOwned(t) && WorkersOwned(t)
  {
    forall i | RunningGenut(t, i) ensures Holds(t, i) {
      assert Holds(db, i);
    }
    hide Held;
  }

  /** Changing job rows alone keeps the invariant if the running GENUT rows stay as they are,
      nothing starts, and ended jobs stay ended. */
  lemma JobsKeep(db: Db, t: Db)
    requires Inv(db) && t == db.(jobs := t.jobs)
    requires Rows(t) && InOrder(t)
    requires forall i :: RunningGenut(t, i) <==> RunningGenut(db, i)
    requires forall i :: RunningGenut(t, i) && RunningGenut(db, i) ==> t.jobs[i] == db.jobs[i]
    requires forall i :: IsRunning(t, i) ==> IsRunning(db, i) && t.jobs[i].product == db.jobs[i].product
    requires forall i :: Gone(db, i) ==> Gone(t, i)
    ensures Inv(t)
  {
    RowsAreNamed(db);
    hide Named;
    hide Rows;
    hide InOrder;
    hide Held;
    hide LocksOwned;
    hide WorkersOwned;
    hide Exclusive;
    hide Gone;
    HoldingsKeep(db, t);
    ExclusiveShrinks(db, t);
  }

  // ---- Inserting queued jobs ----

  lemma InsertRows(db: Db, job: Job)
    requires Rows(db) && InOrder(db) && job.product in db.products && job.status == Queued && RowOk(job)
    ensures var t := db.(jobs := db.jobs[db.nextJob := job], nextJob := db.nextJob + 1);
            Rows(t) && InOrder(t) && db.nextJob !in db.jobs
  {
    QueuedHasNotStarted(job);
    hide RowOk;
    assert db.nextJob !in db.jobs;
  }

  lemma QueuedHasNotStarted(job: Job)
    requires job.status == Queued && RowOk(job)
    ensures job.startedAt.None?
  {
  }

  lemma InsertKeeps(db: Db, job: Job)
    requires Inv(db) && job.product in db.products && job.status == Queued && RowOk(job)
    ensures Inv(db.(jobs := db.jobs[db.nextJob := job], nextJob := db.nextJob + 1))
  {
    var t := db.(jobs := db.jobs[db.nextJob := job], nextJob := db.nextJob + 1);
    InsertRows(db, job);
    RowsAreNamed(db);
    hide Rows;
    hide Named;
    hide InOrder;
    hide RowOk;
    hide Held;
    hide LocksOwned;
    hide WorkersOwned;
    hide Exclusive;
    assert forall j :: j in db.jobs ==> j in t.jobs && t.jobs[j] == db.jobs[j];
    assert forall j :: RunningGenut(t, j) <==> RunningGenut(db, j);
    assert forall j :: IsRunning(t, j) <==> IsRunning(db, j);
    HoldingsKeep(db, t);
    ExclusiveShrinks(db, t);
  }

  lemma SubmitKeeps(db: Db, p: nat, function_: Option<string>, files: seq<string>, origin: Origin, now: Time)
    requires Inv(db)
    ensures Inv(Submit(db, p, function_, files, origin, now))
  {
    hide Inv;
    if p in db.products {
      InsertKeeps(db, NewJob(p, Genut, origin, Given(function_), files, now));
    }
  }

  lemma RerunKeeps(db: Db, j: nat, now: Time)
    requires Inv(db)
    ensures Inv(Rerun(db, j, now))
  {
    hide Inv;
    if j in db.jobs && db.jobs[j].product in db.products {
      var o := db.jobs[j];
      InsertKeeps(db, NewJob(o.product, o.kind, o.origin, o.function_, o.files, now));
    }
  }

  /** Only the key of a product matters to the invariant. */
  lemma ProductSettingsKeep(db: Db, p: nat, product: Product)
    requires Inv(db) && p in db.products && product.key == db.products[p].key
    ensures Inv(db.(products := db.products[p := product]))
  {
    var t := db.(products := db.products[p := product]);
    assert Rows(t) && InOrder(t);
    RowsAreNamed(db);
    hide Named;
    hide Rows;
    hide InOrder;
    hide Held;
    hide LocksOwned;
    hide WorkersOwned;
    hide Exclusive;
    HoldingsKeep(db, t);
    ExclusiveShrinks(db, t);
  }

  lemma CycleKeeps(db: Db, p: nat, now: Time)
    requires Inv(db) && p in db.products
    ensures Inv(Cycle(db, p, now))
  {
    hide Inv;
    if !UnfinishedPrep(db, p) {
      var diff := NewJob(p, AutoDiff, Auto, None, [], now);
      var scan := NewJob(p, AutoScan, Auto, None, [], now);
      InsertKeeps(db, diff);
      var d := db.(jobs := db.jobs[db.nextJob := diff], nextJob := db.nextJob + 1);
      InsertKeeps(d, scan);
      var e := d.(jobs := d.jobs[d.nextJob := scan], nextJob := d.nextJob + 1);
      ProductSettingsKeep(e, p, e.products[p].(lastAutoRun := Some(now)));
    }
  }

  lemma {:induction false} CyclesKeep(db: Db, now: Time, order: seq<nat>)
    requires Inv(db) && forall p :: p in order ==> p in db.products
    ensures Inv(Cycles(db, now, order))
    decreases |order|
  {
    hide Inv;
    if order != [] {
      var front := order[..|order| - 1];
      CyclesKeep(db, now, front);
      CycleKeeps(Cycles(db, now, front), order[|order| - 1], now);
    }
  }

  // ---- Finishing ----

  lemma FinishRows(db: Db, j: nat, status: Status, summary: Option<string>, error: Option<string>, now: Time)
    requires Rows(db) && InOrder(db) && status.Terminal()
    ensures var t := Finish(db, j, status, summary, error, now);
            Rows(t) && InOrder(t)
  {
  }

  lemma FinishHeld(db: Db, j: nat, status: Status, summary: Option<string>, error: Option<string>, now: Time)
    requires Held(db) && status.Terminal()
    ensures Held(Finish(db, j, status, summary, error, now))
  {
    var t := Finish(db, j, status, summary, error, now);
    forall i | RunningGenut(t, i) ensures Holds(t, i) {
      assert RunningGenut(db, i) && Holds(db, i);
    }
  }

  lemma FinishLocks(db: Db, j: nat, status: Status, summary: Option<string>, error: Option<string>, now: Time)
    requires Held(db) && LocksOwned(db) && status.Terminal()
    ensures LocksOwned(Finish(db, j, status, summary, error, now))
  {
    var t := Finish(db, j, status, summary, error, now);
    assert RunningGenut(db, j) ==> Holds(db, j);
    assert forall i :: RunningGenut(db, i) && i != j ==> RunningGenut(t, i) && t.jobs[i] == db.jobs[i];
  }

  lemma FinishWorkers(db: Db, j: nat, status: Status, summary: Option<string>, error: Option<string>, now: Time)
    requires WorkersOwned(db) && status.Terminal()
    ensures WorkersOwned(Finish(db, j, status, summary, error, now))
  {
    var t := Finish(db, j, status, summary, error, now);
    assert forall i :: RunningGenut(db, i) && i != j ==> RunningGenut(t, i) && t.jobs[i] == db.jobs[i];
  }

  lemma FinishExclusive(db: Db, j: nat, status: Status, summary: Option<string>, error: Option<string>, now: Time)
    requires Exclusive(db) && status.Terminal()
    ensures Exclusive(Finish(db, j, status, summary, error, now))
  {
    ExclusiveShrinks(db, Finish(db, j, status, summary, error, now));
  }

  lemma FinishKeeps(db: Db, j: nat, status: Status, summary: Option<string>, error: Option<string>, now: Time)
    requires Inv(db) && status.Terminal()
    ensures Inv(Finish(db, j, status, summary, error, now))
  {
    FinishRows(db, j, status, summary, error, now);
    FinishHeld(db, j, status, summary, error, now);
    FinishLocks(db, j, status, summary, error, now);
    FinishWorkers(db, j, status, summary, error, now);
    FinishExclusive(db, j, status, summary, error, now);
    hide *;
    Together(Finish(db, j, status, summary, error, now));
  }

  /** Finishing a running GENUT job gives back all it held: its product is unlocked, its worker idle. */
  lemma FinishFreesHoldings(db: Db, j: nat, status: Status, summary: Option<string>, error: Option<string>, now: Time)
    requires Inv(db) && status.Terminal() && RunningGenut(db, j)
    ensures var t := Finish(db, j, status, summary, error, now);
            && t.jobs[j].status == status && t.jobs[j].finishedAt == Some(now)
            && db.jobs[j].product !in t.locks
            && (forall p :: p in t.locks ==> t.locks[p].job != j)
            && (forall w :: w in t.workers && t.workers[w].status == Busy ==> t.workers[w].current != Some(j))
            && |t.locks| == |db.locks| - 1
  {
    hide InOrder;
    hide Exclusive;
    var p := db.jobs[j].product;
    assert Holds(db, j);
    var t := Finish(db, j, status, summary, error, now);
    assert t.locks == db.locks - {p} && t.locks.Keys == db.locks.Keys - {p};
  }

  lemma FinishPrepRows(db: Db, j: nat, status: Status, summary: Option<string>, error: Option<string>, now: Time)
    requires Rows(db) && InOrder(db) && status.Terminal()
    ensures var t := FinishPrep(db, j, status, summary, error, now);
            Rows(t) && InOrder(t)
  {
  }

  lemma FinishPrepKeeps(db: Db, j: nat, status: Status, summary: Option<string>, error: Option<string>, now: Time)
    requires Inv(db) && status.Terminal() && (j in db.jobs ==> db.jobs[j].kind.Prep())
    ensures Inv(FinishPrep(db, j, status, summary, error, now))
  {
    FinishPrepRows(db, j, status, summary, error, now);
    hide Inv;
    hide Rows;
    hide InOrder;
    var t := FinishPrep(db, j, status, summary, error, now);
    assert forall i :: RunningGenut(t, i) <==> RunningGenut(db, i);
    assert forall i :: IsRunning(t, i) <==> IsRunning(db, i) && i != j;
    JobsKeep(db, t);
  }

  lemma {:induction false} ReapedKeeps(db: Db, now: Time, gone: set<nat>)
    requires Inv(db) && forall j :: j in gone ==> j in db.jobs && !db.jobs[j].status.Terminal()
    ensures Inv(Reaped(db, now, gone))
    decreases |gone|
  {
    hide Inv;
    hide Finish;
    hide Reaped;
    if gone == {} {
      ReapNone(db, now);
    } else {
      var j :| j in gone;
      var rest := gone - {j};
      assert rest + {j} == gone;
      ReapedKeeps(db, now, rest);
      ReapOneMore(db, now, rest, j);
      FinishKeeps(Reaped(db, now, rest), j, Failed, None, Some(WATCHDOG_ERROR), now);
    }
  }

  lemma ReapKeeps(db: Db, now: Time, limit: int, alive: set<nat>)
    requires Inv(db)
    ensures Inv(Reaped(db, now, StuckJobs(db, now, limit, alive)))
  {
    hide Inv;
    hide Reaped;
    ReapedKeeps(db, now, StuckJobs(db, now, limit, alive));
  }

  // ---- Restart and cleaning ----

  lemma InterruptedRows(db: Db, now: Time)
    requires Rows(db) && InOrder(db)
    ensures Rows(MarkInterrupted(db, now)) && InOrder(MarkInterrupted(db, now))
  {
  }

  lemma InterruptedOwned(db: Db, now: Time)
    requires LocksOwned(db) && WorkersOwned(db)
    ensures LocksOwned(MarkInterrupted(db, now)) && WorkersOwned(MarkInterrupted(db, now))
  {
    var t := MarkInterrupted(db, now);
    assert forall i :: RunningGenut(db, i) || Gone(db, i) ==> Gone(t, i);
  }

  /** After a restart nothing runs. */
  lemma NothingRuns(db: Db, now: Time)
    ensures forall j :: !IsRunning(MarkInterrupted(db, now), j)
    ensures Held(MarkInterrupted(db, now)) && Exclusive(MarkInterrupted(db, now))
  {
  }

  lemma MarkInterruptedKeeps(db: Db, now: Time)
    requires Inv(db)
    ensures Inv(MarkInterrupted(db, now))
  {
    InterruptedRows(db, now);
    InterruptedOwned(db, now);
    NothingRuns(db, now);
    hide *;
    Together(MarkInterrupted(db, now));
  }

  lemma ReleasedRows(db: Db)
    requires Rows(db) && InOrder(db) && Exclusive(db)
    ensures Rows(ReleaseStale(db)) && InOrder(ReleaseStale(db)) && Exclusive(ReleaseStale(db))
  {
    hide RowOk;
    ExclusiveShrinks(db, ReleaseStale(db));
  }

  lemma ReleasedHeld(db: Db)
    requires Held(db)
    ensures Held(ReleaseStale(db))
  {
    var t := ReleaseStale(db);
    forall j | RunningGenut(t, j) ensures Holds(t, j) {
      assert RunningGenut(db, j) && Holds(db, j);
    }
  }

  lemma ReleasedOwned(db: Db)
    requires LocksOwned(db) && WorkersOwned(db)
    ensures LocksOwned(ReleaseStale(db)) && WorkersOwned(ReleaseStale(db))
  {
    var t := ReleaseStale(db);
    assert forall i :: (RunningGenut(t, i) <==> RunningGenut(db, i)) && (Gone(t, i) <==> Gone(db, i));
  }

  lemma ReleaseStaleKeeps(db: Db)
    requires Inv(db)
    ensures Inv(ReleaseStale(db))
  {
    ReleasedRows(db);
    ReleasedHeld(db);
    ReleasedOwned(db);
    hide *;
    Together(ReleaseStale(db));
  }

  // ---- Starting ----

  lemma RunningKeyIsBusy(db: Db, i: nat)
    requires Rows(db) && Held(db) && IsRunning(db, i)
    ensures HasKey(db, i) && KeyOf(db, i) in BusyKeys(db)
  {
    if RunningGenut(db, i) {
      assert Holds(db, i);
      assert db.jobs[i].product in db.locks;
    } else {
      assert RunningPrep(db, i);
    }
  }

  /** Starting one job whose key is not busy keeps running jobs apart. */
  lemma StartKeepsExclusive(db: Db, t: Db, j: nat)
    requires Rows(db) && Held(db) && Exclusive(db) && t.products == db.products
    requires forall i :: IsRunning(t, i) ==>
             (IsRunning(db, i) || i == j) && i in db.jobs && t.jobs[i].product == db.jobs[i].product
    requires HasKey(db, j) && KeyOf(db, j) !in BusyKeys(db)
    ensures Exclusive(t)
  {
    hide BusyKeys;
    forall i | IsRunning(db, i) ensures HasKey(db, i) && KeyOf(db, i) != KeyOf(db, j) {
      RunningKeyIsBusy(db, i);
    }
  }

  lemma AssignOneRows(db: Db, now: Time, a: Assignment)
    requires Rows(db) && InOrder(db) && a.job in db.jobs && a.worker in db.workers && Candidate(db, a.job)
    ensures Rows(AssignOne(db, now, a)) && InOrder(AssignOne(db, now, a))
  {
  }

  lemma AssignOneHeld(db: Db, now: Time, a: Assignment)
    requires Held(db) && a.job in db.jobs && a.worker in db.workers
    requires db.workers[a.worker].status == Idle && db.jobs[a.job].product !in db.locks
    ensures Held(AssignOne(db, now, a))
  {
    var t := AssignOne(db, now, a);
    forall i | RunningGenut(t, i) ensures Holds(t, i) {
      if i != a.job {
        assert RunningGenut(db, i) && Holds(db, i);
      }
    }
  }

  lemma AssignOneOwned(db: Db, now: Time, a: Assignment)
    requires LocksOwned(db) && WorkersOwned(db) && a.job in db.jobs && a.worker in db.workers && Candidate(db, a.job)
    ensures LocksOwned(AssignOne(db, now, a)) && WorkersOwned(AssignOne(db, now, a))
  {
    var t := AssignOne(db, now, a);
    assert forall i :: RunningGenut(db, i) ==> RunningGenut(t, i) && t.jobs[i] == db.jobs[i];
    assert forall i :: Gone(db, i) ==> Gone(t, i);
  }

  /** A queued GENUT job may start on an idle worker when nothing of its key runs or is locked. */
  lemma AssignOneKeeps(db: Db, now: Time, a: Assignment)
    requires Inv(db) && a.job in db.jobs && a.worker in db.workers
    requires Candidate(db, a.job) && db.workers[a.worker].status == Idle
    requires KeyOf(db, a.job) !in BusyKeys(db)
    ensures Inv(AssignOne(db, now, a))
  {
    assert db.jobs[a.job].product !in db.locks;
    hide BusyKeys;
    AssignOneRows(db, now, a);
    AssignOneHeld(db, now, a);
    AssignOneOwned(db, now, a);
    StartKeepsExclusive(db, AssignOne(db, now, a), a.job);
  }

  lemma {:induction false} AssignKeeps(db: Db, now: Time, asg: seq<Assignment>)
    requires Inv(db) && Claims(db, asg) && Assignable(db, asg)
    ensures Inv(Assign(db, now, asg))
  {
    AssignPrefixKeeps(db, now, asg, |asg|);
    assert asg[..|asg|] == asg;
  }

  lemma {:induction false} AssignPrefixKeeps(db: Db, now: Time, asg: seq<Assignment>, n: nat)
    requires Inv(db) && Claims(db, asg) && Assignable(db, asg) && n <= |asg|
    ensures Inv(Assign(db, now, asg[..n]))
    decreases n
  {
    hide Inv;
    hide AssignOne;
    hide Claims;
    hide Candidate;
    hide BusyKeys;
    if n > 0 {
      var front, a := asg[..n - 1], asg[n - 1];
      AssignPrefixKeeps(db, now, asg, n - 1);
      assert asg[..n][..n - 1] == front;
      NextIsFree(db, now, asg, n - 1);
      AssignOneKeeps(Assign(db, now, front), now, a);
    }
  }

  /** Nothing assigned before makes the next assignment impossible. */
  lemma {:induction false} NextIsFree(db: Db, now: Time, asg: seq<Assignment>, n: nat)
    requires Claims(db, asg) && Assignable(db, asg) && n < |asg|
    ensures var r := Assign(db, now, asg[..n]);
            && Candidate(r, asg[n].job) && r.workers[asg[n].worker].status == Idle
            && KeyOf(r, asg[n].job) !in BusyKeys(r)
  {
    hide Champion;
    hide BusyKeys;
    var front, a := asg[..n], asg[n];
    AssignFrame(db, now, front);
    assert !TakesWorker(front, a.worker);
    forall k | 0 <= k < n ensures Champion(db, front[k].job) && front[k].job != a.job {
      assert front[k] == asg[k];
    }
    assert Champion(db, a.job);
    LockIsFree(db, now, front, a.job);
    KeyStaysFree(db, now, front, a.job);
  }

  /** Assigning jobs of other keys leaves a key free. */
  lemma {:induction false} KeyStaysFree(db: Db, now: Time, asg: seq<Assignment>, j: nat)
    requires Assignable(db, asg) && Champion(db, j)
    requires forall k :: 0 <= k < |asg| ==> Champion(db, asg[k].job) && asg[k].job != j
    ensures Candidate(db, j) && KeyOf(db, j) !in BusyKeys(Assign(db, now, asg))
  {
    hide Before;
    var r := Assign(db, now, asg);
    AssignFrame(db, now, asg);
    hide Assign;
    forall p | p in r.locks && p in db.products ensures db.products[p].key != KeyOf(db, j) {
      LockOfOtherKey(db, asg, j, p);
    }
    forall i | RunningPrep(r, i) && HasKey(r, i) ensures KeyOf(r, i) != KeyOf(db, j) {
      PrepOfOtherKey(db, now, asg, j, i);
    }
  }

  lemma {:induction false} PrepOfOtherKey(db: Db, now: Time, asg: seq<Assignment>, j: nat, i: nat)
    requires Assignable(db, asg) && Champion(db, j)
    requires forall k :: 0 <= k < |asg| ==> Champion(db, asg[k].job)
    requires RunningPrep(Assign(db, now, asg), i) && HasKey(Assign(db, now, asg), i)
    ensures KeyOf(Assign(db, now, asg), i) != KeyOf(db, j)
  {
    hide Before;
    assert forall k :: 0 <= k < |asg| ==> Candidate(db, asg[k].job);
    AssignedAreGenut(db, now, asg, i);
    hide Assign;
    assert KeyOf(db, i) in BusyKeys(db);
  }

  lemma LockOfOtherKey(db: Db, asg: seq<Assignment>, j: nat, p: nat)
    requires Assignable(db, asg) && Champion(db, j)
    requires forall k :: 0 <= k < |asg| ==> Champion(db, asg[k].job) && asg[k].job != j
    requires p in db.products && (p in db.locks || TakesProduct(db, asg, p))
    ensures db.products[p].key != KeyOf(db, j)
  {
    if TakesProduct(db, asg, p) {
      var k :| 0 <= k < |asg| && db.jobs[asg[k].job].product == p;
      ChampionsDiffer(db, asg[k].job, j);
    }
  }

  lemma {:induction false} AssignedAreGenut(db: Db, now: Time, asg: seq<Assignment>, j: nat)
    requires Assignable(db, asg) && forall k :: 0 <= k < |asg| ==> Candidate(db, asg[k].job)
    requires RunningPrep(Assign(db, now, asg), j)
    ensures RunningPrep(db, j) && Assign(db, now, asg).jobs[j] == db.jobs[j]
    decreases |asg|
  {
    KindsStay(db, now, asg, j);
    AssignFrame(db, now, asg);
    assert !TakesJob(asg, j);
  }

  lemma {:induction false} KindsStay(db: Db, now: Time, asg: seq<Assignment>, j: nat)
    requires Assignable(db, asg) && j in db.jobs
    ensures Assign(db, now, asg).jobs[j].kind == db.jobs[j].kind
    decreases |asg|
  {
    if asg != [] {
      KindsStay(db, now, asg[..|asg| - 1], j);
    }
  }

  lemma StartPrepRows(db: Db, now: Time)
    requires Rows(db)
    ensures Rows(StartPrep(db, now))
  {
    hide BusyKeys;
  }

  lemma StartPrepKeeps(db: Db, now: Time)
    requires Inv(db)
    ensures Inv(StartPrep(db, now))
  {
    StartPrepRows(db, now);
    StartPrepInOrder(db, now);
    StartPrepExclusive(db, now);
    StartPrepOwned(db, now);
    hide *;
    Together(StartPrep(db, now));
  }

  lemma StartPrepOwned(db: Db, now: Time)
    requires Held(db) && LocksOwned(db) && WorkersOwned(db)
    ensures var t := StartPrep(db, now);
            Held(t) && LocksOwned(t) && WorkersOwned(t)
  {
    hide BusyKeys;
    var t := StartPrep(db, now);
    assert forall i :: RunningGenut(t, i) <==> RunningGenut(db, i);
    assert forall i :: RunningGenut(t, i) ==> t.jobs[i] == db.jobs[i];
    assert forall i :: Gone(t, i) <==> Gone(db, i);
  }

  lemma StartPrepExclusive(db: Db, now: Time)
    requires Rows(db) && Held(db) && Exclusive(db)
    ensures Exclusive(StartPrep(db, now))
  {
    hide BusyKeys;
    var t := StartPrep(db, now);
    assert forall i :: IsRunning(t, i) <==> IsRunning(db, i) || PrepChampion(db, i);
    forall i | IsRunning(db, i) ensures KeyOf(db, i) in BusyKeys(db) {
      RunningKeyIsBusy(db, i);
    }
  }

  lemma StartPrepInOrder(db: Db, now: Time)
    requires Rows(db) && InOrder(db)
    ensures InOrder(StartPrep(db, now))
  {
    hide BusyKeys;
    var t := StartPrep(db, now);
    forall i, j | i in t.jobs && j in t.jobs && i < j && t.jobs[i].kind.Prep() && t.jobs[j].kind.Prep()
                  && t.jobs[i].product == t.jobs[j].product && t.jobs[j].startedAt.Some?
      ensures t.jobs[i].status != Queued
    {
      if PrepChampion(db, j) {
        assert KeyOf(db, i) == KeyOf(db, j) && !PrepCandidate(db, i);
      }
    }
  }

  // ---- Cancels and deletions ----

  lemma CancelQueuedRows(db: Db, p: nat, now: Time)
    requires Rows(db) && InOrder(db)
    ensures Rows(CancelQueued(db, p, now)) && InOrder(CancelQueued(db, p, now))
  {
  }

  lemma CancelQueuedKeeps(db: Db, p: nat, now: Time)
    requires Inv(db)
    ensures Inv(CancelQueued(db, p, now))
  {
    CancelQueuedRows(db, p, now);
    hide Inv;
    hide Rows;
    hide InOrder;
    var t := CancelQueued(db, p, now);
    assert forall i :: RunningGenut(t, i) <==> RunningGenut(db, i);
    assert forall i :: IsRunning(t, i) <==> IsRunning(db, i);
    JobsKeep(db, t);
  }

  lemma DeletedJobsKeep(db: Db, gone: set<nat>)
    requires Inv(db) && forall j :: j in gone ==> Gone(db, j)
    ensures Inv(DeletedJobs(db, gone))
  {
    var t := DeletedJobs(db, gone);
    assert forall i :: RunningGenut(t, i) <==> RunningGenut(db, i);
    assert forall i :: IsRunning(t, i) <==> IsRunning(db, i);
    JobsKeep(db, t);
  }

  lemma DeletedWorkerRows(db: Db, w: nat)
    requires Rows(db) && InOrder(db)
    ensures Rows(DeletedWorker(db, w)) && InOrder(DeletedWorker(db, w))
  {
  }

  lemma DeletedWorkerHeld(db: Db, w: nat)
    requires Held(db) && !InUse(db, w)
    ensures Held(DeletedWorker(db, w))
  {
    var t := DeletedWorker(db, w);
    forall i | RunningGenut(t, i) ensures Holds(t, i) {
      assert Holds(db, i) && db.jobs[i].worker != Some(w);
    }
  }

  lemma DeletedWorkerOwned(db: Db, w: nat)
    requires LocksOwned(db) && WorkersOwned(db) && !InUse(db, w)
    ensures LocksOwned(DeletedWorker(db, w)) && WorkersOwned(DeletedWorker(db, w))
  {
    var t := DeletedWorker(db, w);
    assert forall i :: RunningGenut(db, i) ==> RunningGenut(t, i) && t.jobs[i] == db.jobs[i];
    assert forall i :: Gone(db, i) ==> Gone(t, i);
  }

  lemma DeletedWorkerKeeps(db: Db, w: nat)
    requires Inv(db) && !InUse(db, w)
    ensures Inv(DeletedWorker(db, w))
  {
    var t := DeletedWorker(db, w);
    DeletedWorkerRows(db, w);
    DeletedWorkerHeld(db, w);
    DeletedWorkerOwned(db, w);
    ExclusiveShrinks(db, t);
  }

  lemma DeletedProductRows(db: Db, p: nat)
    requires Rows(db) && InOrder(db) && Exclusive(db)
    ensures Rows(DeletedProduct(db, p)) && InOrder(DeletedProduct(db, p)) && Exclusive(DeletedProduct(db, p))
  {
    hide RowOk;
    ExclusiveShrinks(db, DeletedProduct(db, p));
  }

  lemma DeletedProductHeld(db: Db, p: nat)
    requires Held(db) && LocksOwned(db) && WorkersOwned(db) && !Active(db, p)
    ensures Held(DeletedProduct(db, p)) && LocksOwned(DeletedProduct(db, p)) && WorkersOwned(DeletedProduct(db, p))
  {
    var t := DeletedProduct(db, p);
    assert forall i :: IsRunning(db, i) ==> db.jobs[i].product != p;
    assert forall i :: RunningGenut(t, i) <==> RunningGenut(db, i);
    forall j | RunningGenut(t, j) ensures Holds(t, j) {
      assert Holds(db, j);
    }
    assert forall i :: Gone(db, i) ==> Gone(t, i);
  }

  lemma DeletedProductKeeps(db: Db, p: nat)
    requires Inv(db) && !Active(db, p)
    ensures Inv(DeletedProduct(db, p))
  {
    DeletedProductRows(db, p);
    DeletedProductHeld(db, p);
    hide *;
    Together(DeletedProduct(db, p));
  }

  // ---- Configuration ----

  lemma AddProductKeeps(db: Db, p: nat, product: Product)
    requires Inv(db) && p !in db.products
    ensures Inv(db.(products := db.products[p := product]))
  {
    var t := db.(products := db.products[p := product]);
    assert forall i :: RunningGenut(t, i) <==> RunningGenut(db, i);
    assert forall i :: IsRunning(t, i) <==> IsRunning(db, i);
    assert forall i :: i in db.jobs ==> HasKey(t, i) && HasKey(db, i) && KeyOf(t, i) == KeyOf(db, i);
    assert Held(t) && LocksOwned(t) && WorkersOwned(t);
  }

  /** A new worker is idle; enabling and disabling leave its status alone. */
  lemma SetWorkerKeeps(db: Db, w: nat, worker: Worker)
    requires Inv(db)
    requires if w in db.workers
             then worker == db.workers[w].(enabled := worker.enabled)
             else worker == Worker(worker.enabled, Idle, None)
    ensures Inv(db.(workers := db.workers[w := worker]))
  {
    var t := db.(workers := db.workers[w := worker]);
    assert Rows(t) && InOrder(t);
    RowsAreNamed(db);
    hide Named;
    hide Rows;
    hide InOrder;
    hide Held;
    hide LocksOwned;
    hide WorkersOwned;
    hide Exclusive;
    HoldingsKeep(db, t);
    ExclusiveShrinks(db, t);
  }

  /** No job running elsewhere has the key to which a product with a running job is renamed. */
  predicate RenameIsSafe(db: Db, p: nat, key: Key) {
    forall i, j :: i in db.jobs && j in db.jobs && IsRunning(db, i) && IsRunning(db, j)
                   && db.jobs[i].product == p && db.jobs[j].product != p && HasKey(db, j) ==>
      KeyOf(db, j) != key
  }

  /** Renaming changes no row but the product's. */
  lemma RenameRest(db: Db, p: nat, key: Key)
    requires Inv(db) && p in db.products
    ensures var t := RenamedProduct(db, p, key);
            Rows(t) && Held(t) && LocksOwned(t) && WorkersOwned(t) && InOrder(t)
  {
    hide Exclusive;
    var t := RenamedProduct(db, p, key);
    assert forall i :: RunningGenut(t, i) <==> RunningGenut(db, i);
  }

  /** Renaming is not guarded by the program. It keeps the invariant exactly when it is safe. */
  lemma RenameKeepsExactly(db: Db, p: nat, key: Key)
    requires Inv(db) && p in db.products
    ensures Inv(RenamedProduct(db, p, key)) <==> RenameIsSafe(db, p, key)
  {
    var t := RenamedProduct(db, p, key);
    RenameRest(db, p, key);
    hide Held;
    hide LocksOwned;
    hide WorkersOwned;
    hide InOrder;
    assert forall i :: IsRunning(t, i) <==> IsRunning(db, i);
    assert forall i :: i in db.jobs ==>
      HasKey(t, i) && HasKey(db, i) && KeyOf(t, i) == if db.jobs[i].product == p then key else KeyOf(db, i);
    if RenameIsSafe(db, p, key) {
      forall i, j | IsRunning(t, i) && IsRunning(t, j) && i != j && HasKey(t, i) && HasKey(t, j)
        ensures KeyOf(t, i) != KeyOf(t, j)
      {
        assert KeyOf(db, i) != KeyOf(db, j);
      }
    } else {
      var i, j :| i in db.jobs && j in db.jobs && IsRunning(db, i) && IsRunning(db, j)
                  && db.jobs[i].product == p && db.jobs[j].product != p && HasKey(db, j) && KeyOf(db, j) == key;
      assert KeyOf(t, i) == KeyOf(t, j);
      assert !Exclusive(t);
    }
  }
}

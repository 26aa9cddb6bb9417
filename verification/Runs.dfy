/** Whole runs of the service: any interleaving of its operations on the tables. */
module Runs {
  import opened Database
  import opened Engine
  import opened AutoTick
  import opened Janitor
  import opened Services
  import opened Invariant

  datatype Action =
    | Submitting(product: nat, function_: Option<string>, files: seq<string>, origin: Origin)
    | Rerunning(job: nat)
    | Claiming(assignments: seq<Assignment>)
    | StartingPreps
    | Finishing(job: nat, status: Status, summary: Option<string>, error: Option<string>)
    | FinishingPrep(job: nat, status: Status, summary: Option<string>, error: Option<string>)
    | Cycling(product: nat)
    | CyclingDue(order: seq<nat>)
    | CancelingQueued(product: nat)
    | DeletingJob(job: nat)
    | DeletingFinished(product: nat)
    | DeletingWorker(worker: nat)
    | DeletingProduct(product: nat)
    | Reaping(limit: int, alive: set<nat>)
    | Interrupting
    | Releasing
    | AddingProduct(product: nat, row: Product)
    | ChangingProduct(product: nat, row: Product)
    | MovingBase(product: nat, commit: string)
    | Renaming(product: nat, key: Key)
    | SettingWorker(worker: nat, enabled: bool)

  /** What the action makes of the tables. Guards are those of the operations; a rename is taken
      to be safe, which the program does not check. */
  ghost predicate Step(s: Db, now: Time, a: Action, t: Db) {
    match a
    case Submitting(p, function_, files, origin) => t == Submit(s, p, function_, files, origin, now)
    case Rerunning(j) => t == Rerun(s, j, now)
    case Claiming(asg) => Claims(s, asg) && Assignable(s, asg) && t == Assign(s, now, asg)
    case StartingPreps => t == StartPrep(s, now)
    case Finishing(j, status, summary, error) => status.Terminal() && t == Finish(s, j, status, summary, error, now)
    case FinishingPrep(j, status, summary, error) =>
      && status.Terminal() && (j in s.jobs ==> s.jobs[j].kind.Prep())
      && t == FinishPrep(s, j, status, summary, error, now)
    case Cycling(p) => p in s.products && t == Cycle(s, p, now)
    case CyclingDue(order) => InSomeOrder(s, now, order) && t == Cycles(s, now, order)
    case CancelingQueued(p) => t == CancelQueued(s, p, now)
    case DeletingJob(j) => t == if DeletionOf(s, j) == Deleted then DeletedJobs(s, {j}) else s
    case DeletingFinished(p) => t == DeletedJobs(s, FinishedJobs(s, p))
    case DeletingWorker(w) => t == if w in s.workers && !InUse(s, w) then DeletedWorker(s, w) else s
    case DeletingProduct(p) => t == if p in s.products && !Active(s, p) then DeletedProduct(s, p) else s
    case Reaping(limit, alive) => t == Reaped(s, now, StuckJobs(s, now, limit, alive))
    case Interrupting => t == MarkInterrupted(s, now)
    case Releasing => t == ReleaseStale(s)
    case AddingProduct(p, row) =>
      && p !in s.products && row.lastScanned.None? && row.lastAutoRun.None?
      && t == s.(products := s.products[p := row])
    case ChangingProduct(p, row) =>
      && p in s.products && row.key == s.products[p].key
      && row.lastScanned == s.products[p].lastScanned && row.lastAutoRun == s.products[p].lastAutoRun
      && t == s.(products := s.products[p := row])
    case MovingBase(p, commit) =>
      p in s.products && t == s.(products := s.products[p := s.products[p].(lastScanned := Some(commit))])
    case Renaming(p, key) => p in s.products && RenameIsSafe(s, p, key) && t == RenamedProduct(s, p, key)
    case SettingWorker(w, enabled) =>
      t == s.(workers := s.workers[w := if w in s.workers then s.workers[w].(enabled := enabled)
                                        else Worker(enabled, Idle, None)])
  }

  lemma StepKeeps(s: Db, now: Time, a: Action, t: Db)
    requires Inv(s) && Step(s, now, a, t)
    ensures Inv(t)
  {
    hide Inv;
    hide Submit;
    hide Rerun;
    hide Assign;
    hide StartPrep;
    hide Finish;
    hide FinishPrep;
    hide Cycle;
    hide Cycles;
    hide CancelQueued;
    hide DeletedJobs;
    hide DeletedWorker;
    hide DeletedProduct;
    hide Reaped;
    hide StuckJobs;
    hide MarkInterrupted;
    hide ReleaseStale;
    hide RenamedProduct;
    hide RenameIsSafe;
    hide Claims;
    hide InUse;
    hide Active;
    match a
    case Submitting(p, function_, files, origin) => SubmitKeeps(s, p, function_, files, origin, now);
    case Rerunning(j) => RerunKeeps(s, j, now);
    case Claiming(asg) => AssignKeeps(s, now, asg);
    case StartingPreps => StartPrepKeeps(s, now);
    case Finishing(j, status, summary, error) => FinishKeeps(s, j, status, summary, error, now);
    case FinishingPrep(j, status, summary, error) => FinishPrepKeeps(s, j, status, summary, error, now);
    case Cycling(p) => CycleKeeps(s, p, now);
    case CyclingDue(order) => CyclesKeep(s, now, order);
    case CancelingQueued(p) => CancelQueuedKeeps(s, p, now);
    case DeletingJob(j) => if DeletionOf(s, j) == Deleted { DeletedJobsKeep(s, {j}); }
    case DeletingFinished(p) => DeletedJobsKeep(s, FinishedJobs(s, p));
    case DeletingWorker(w) => if w in s.workers && !InUse(s, w) { DeletedWorkerKeeps(s, w); }
    case DeletingProduct(p) => if p in s.products && !Active(s, p) { DeletedProductKeeps(s, p); }
    case Reaping(limit, alive) => ReapKeeps(s, now, limit, alive);
    case Interrupting => MarkInterruptedKeeps(s, now);
    case Releasing => ReleaseStaleKeeps(s);
    case AddingProduct(p, row) => AddProductKeeps(s, p, row);
    case ChangingProduct(p, row) => ProductSettingsKeep(s, p, row);
    case MovingBase(p, commit) => ProductSettingsKeep(s, p, s.products[p].(lastScanned := Some(commit)));
    case Renaming(p, key) => RenameKeepsExactly(s, p, key);
    case SettingWorker(w, enabled) => SetWorkerKeeps(s, w, t.workers[w]);
  }

  /** Steps that change no job row. */
  predicate LeavesJobs(a: Action) {
    a.AddingProduct? || a.ChangingProduct? || a.MovingBase? || a.Renaming? || a.SettingWorker? || a.Releasing?
  }

  lemma JobsAreLeft(s: Db, now: Time, a: Action, t: Db)
    requires Step(s, now, a, t) && LeavesJobs(a)
    ensures t.jobs == s.jobs && t.nextJob == s.nextJob
    ensures !a.Releasing? ==> t.locks == s.locks
  {
    hide RenameIsSafe;
    hide StaleWorker;
    hide Gone;
  }

  // ---- Traces ----

  datatype Event = Event(now: Time, action: Action, after: Db)

  /** A database before anything was queued. */
  predicate Fresh(db: Db) {
    && db.jobs == map[] && db.locks == map[]
    && forall w :: w in db.workers ==> db.workers[w].status == Idle && db.workers[w].current.None?
  }

  function StateAt(init: Db, trace: seq<Event>, k: nat): Db
    requires k <= |trace|
  {
    if k == 0 then init else trace[k - 1].after
  }

  ghost predicate StepAt(init: Db, trace: seq<Event>, k: nat)
    requires k < |trace|
  {
    Step(StateAt(init, trace, k), trace[k].now, trace[k].action, trace[k].after)
  }

  ghost predicate Run(init: Db, trace: seq<Event>) {
    Fresh(init) && forall k :: 0 <= k < |trace| ==> StepAt(init, trace, k)
  }

  lemma TraceStep(init: Db, trace: seq<Event>, k: nat)
    requires Run(init, trace) && k < |trace|
    ensures Step(StateAt(init, trace, k), trace[k].now, trace[k].action, trace[k].after)
    ensures StateAt(init, trace, k + 1) == trace[k].after
  {
    hide Step;
    assert StepAt(init, trace, k);
  }

  /** A run goes on by one more step. */
  lemma RunExtends(init: Db, trace: seq<Event>, e: Event)
    requires Run(init, trace) && Step(StateAt(init, trace, |trace|), e.now, e.action, e.after)
    ensures Run(init, trace + [e]) && StateAt(init, trace + [e], |trace| + 1) == e.after
    ensures forall k :: 0 <= k <= |trace| ==> StateAt(init, trace + [e], k) == StateAt(init, trace, k)
  {
    hide Step;
    forall k | 0 <= k <= |trace| ensures StepAt(init, trace + [e], k) {
      if k < |trace| {
        TraceStep(init, trace, k);
      }
    }
  }

  lemma RunStartsFresh(init: Db, trace: seq<Event>)
    requires Run(init, trace)
    ensures Fresh(init)
  {
    hide Step;
  }

  /** The invariant holds in every reachable state. */
  lemma {:induction false} ReachableInv(init: Db, trace: seq<Event>, k: nat)
    requires Run(init, trace) && k <= |trace|
    ensures Inv(StateAt(init, trace, k))
  {
    if k > 0 {
      hide Inv;
      hide Step;
      TraceStep(init, trace, k - 1);
      ReachableInv(init, trace, k - 1);
      StepKeeps(StateAt(init, trace, k - 1), trace[k - 1].now, trace[k - 1].action, trace[k - 1].after);
    }
  }

  /** In every reachable state at most one job of any kind runs per project and name. */
  lemma MutualExclusion(init: Db, trace: seq<Event>, k: nat, i: nat, j: nat)
    requires Run(init, trace) && k <= |trace|
    requires IsRunning(StateAt(init, trace, k), i) && IsRunning(StateAt(init, trace, k), j) && i != j
    ensures var db := StateAt(init, trace, k);
            HasKey(db, i) && HasKey(db, j) && KeyOf(db, i) != KeyOf(db, j)
  {
    ReachableInv(init, trace, k);
  }

  /** In every reachable state running GENUT jobs, the locks and the workers they hold correspond
      one to one; whatever else is locked or busy belongs to a job that has ended. */
  lemma HoldingsAreExact(init: Db, trace: seq<Event>, k: nat)
    requires Run(init, trace) && k <= |trace|
    ensures var db := StateAt(init, trace, k);
            && (forall j :: RunningGenut(db, j) ==> Holds(db, j))
            && (forall j, p :: RunningGenut(db, j) && p in db.locks && db.locks[p].job == j ==> p == db.jobs[j].product)
            && (forall j, w ::
                  && RunningGenut(db, j) && w in db.workers
                  && db.workers[w].status == Busy && db.workers[w].current == Some(j) ==>
                    db.jobs[j].worker == Some(w))
            && (forall i, j :: RunningGenut(db, i) && RunningGenut(db, j) && i != j ==>
                db.jobs[i].worker != db.jobs[j].worker)
            && (forall p :: p in db.locks && !Gone(db, db.locks[p].job) ==> RunningGenut(db, db.locks[p].job))
            && (forall w :: w in db.workers && db.workers[w].status == Busy ==>
                  db.workers[w].current.Some?
                      && (Gone(db, db.workers[w].current.value) || RunningGenut(db, db.workers[w].current.value)))
  {
    ReachableInv(init, trace, k);
  }

  // ---- Ended jobs stay ended ----

  /** What may have become of an ended job: it was deleted, or it is still ended; a GENUT job
      keeps its very status. */
  predicate StillEnded(s: Db, t: Db, j: nat) {
    j in s.jobs && j in t.jobs && s.jobs[j].status.Terminal() ==>
      && t.jobs[j].status.Terminal() && t.jobs[j].kind == s.jobs[j].kind
      && (s.jobs[j].kind == Genut ==> t.jobs[j].status == s.jobs[j].status)
  }

  /** Ids are not used again. */
  predicate StillUnused(s: Db, t: Db, j: nat) {
    s.nextJob <= t.nextJob && (j < s.nextJob && j !in s.jobs ==> j !in t.jobs)
  }

  /** An ended job is taken by no assignment. */
  lemma {:induction false} EndedIsNotTaken(db: Db, asg: seq<Assignment>, j: nat)
    requires Claims(db, asg) && j in db.jobs && db.jobs[j].status.Terminal()
    ensures !TakesJob(asg, j)
  {
    hide Before;
    hide BusyKeys;
    forall k | 0 <= k < |asg| ensures asg[k].job != j {
      assert Champion(db, asg[k].job);
    }
  }

  lemma {:induction false} AssignEnds(db: Db, now: Time, asg: seq<Assignment>, j: nat)
    requires Claims(db, asg) && Assignable(db, asg)
    ensures StillEnded(db, Assign(db, now, asg), j) && StillUnused(db, Assign(db, now, asg), j)
  {
    hide Claims;
    hide Champion;
    if j in db.jobs && db.jobs[j].status.Terminal() {
      EndedIsNotTaken(db, asg, j);
    }
    AssignFrame(db, now, asg);
    hide Assign;
    hide TakesJob;
    hide TakesWorker;
    hide TakesProduct;
  }

  lemma {:induction false} CyclesEnd(db: Db, now: Time, order: seq<nat>, j: nat)
    requires Inv(db) && forall p :: p in order ==> p in db.products
    ensures StillEnded(db, Cycles(db, now, order), j) && StillUnused(db, Cycles(db, now, order), j)
    decreases |order|
  {
    if order != [] {
      var front := order[..|order| - 1];
      CyclesEnd(db, now, front, j);
      CyclesKeep(db, now, front);
      hide InOrder;
      hide Exclusive;
      hide Held;
      hide LocksOwned;
      hide WorkersOwned;
    }
  }

  lemma OtherStepEnds(s: Db, now: Time, a: Action, t: Db, j: nat)
    requires Rows(s) && Step(s, now, a, t) && !a.Claiming? && !a.CyclingDue? && !LeavesJobs(a)
    ensures StillEnded(s, t, j) && StillUnused(s, t, j)
  {
    hide PrepChampion;
    hide RenameIsSafe;
    hide Claims;
    hide RowOk;
    hide LockHeldBy;
    hide WorkerHeldBy;
    hide StaleWorker;
    hide Exclusive;
    ChampionsAreUnfinished(s);
  }

  lemma NothingEnds(s: Db, t: Db, j: nat)
    requires t.jobs == s.jobs && t.nextJob == s.nextJob
    ensures StillEnded(s, t, j) && StillUnused(s, t, j)
  {
  }

  lemma StepEnds(s: Db, now: Time, a: Action, t: Db, j: nat)
    requires Inv(s) && Step(s, now, a, t)
    ensures StillEnded(s, t, j) && StillUnused(s, t, j)
  {
    hide StillEnded;
    hide StillUnused;
    if a.Claiming? {
      AssignEnds(s, now, a.assignments, j);
    } else if a.CyclingDue? {
      CyclesEnd(s, now, a.order, j);
    } else if LeavesJobs(a) {
      JobsAreLeft(s, now, a, t);
      NothingEnds(s, t, j);
    } else {
      OtherStepEnds(s, now, a, t, j);
    }
  }

  /** A job that has ended at some point of a run is still ended at every later point, or deleted. */
  lemma {:induction false} EndedForGood(init: Db, trace: seq<Event>, k: nat, n: nat, j: nat)
    requires Run(init, trace) && k <= n <= |trace|
    requires j in StateAt(init, trace, k).jobs && StateAt(init, trace, k).jobs[j].status.Terminal()
    ensures StillEnded(StateAt(init, trace, k), StateAt(init, trace, n), j)
    ensures j < StateAt(init, trace, n).nextJob
    decreases n
  {
    hide Run;
    hide Step;
    ReachableInv(init, trace, k);
    if n > k {
      EndedForGood(init, trace, k, n - 1, j);
      ReachableInv(init, trace, n - 1);
      TraceStep(init, trace, n - 1);
      hide Inv;
      StepEnds(StateAt(init, trace, n - 1), trace[n - 1].now, trace[n - 1].action, StateAt(init, trace, n), j);
    }
  }

  /** A worker that finishes a job after the watchdog took it changes nothing at all. */
  lemma LateFinishIsHarmless(init: Db, trace: seq<Event>, k: nat, n: nat, j: nat)
    requires Run(init, trace) && k < n < |trace|
    requires trace[k].action.Reaping?
    requires Stuck(StateAt(init, trace, k), j, trace[k].now, trace[k].action.limit, trace[k].action.alive)
    requires trace[n].action.Finishing? && trace[n].action.job == j
    ensures trace[n].after == StateAt(init, trace, n)
  {
    hide Run;
    TraceStep(init, trace, k);
    TraceStep(init, trace, n);
    ReapedHasEnded(StateAt(init, trace, k), trace[k].now, trace[k].action.limit, trace[k].action.alive, j);
    EndedForGood(init, trace, k + 1, n, j);
  }

  lemma ReapedHasEnded(db: Db, now: Time, limit: int, alive: set<nat>, j: nat)
    requires Stuck(db, j, now, limit, alive)
    ensures var t := Reaped(db, now, StuckJobs(db, now, limit, alive));
            j in t.jobs && t.jobs[j].status == Failed
  {
  }

  /** Finishing a job, late or not, leaves the locks and workers of all other jobs alone. */
  lemma FinishTouchesOwnOnly(db: Db, j: nat, status: Status, summary: Option<string>, error: Option<string>, now: Time)
    ensures var t := Finish(db, j, status, summary, error, now);
            && (forall p :: p in db.locks && db.locks[p].job != j ==> p in t.locks && t.locks[p] == db.locks[p])
            && (forall w :: w in db.workers && db.workers[w].current != Some(j) ==>
                w in t.workers && t.workers[w] == db.workers[w])
            && (forall i :: i in db.jobs && i != j ==> i in t.jobs && t.jobs[i] == db.jobs[i])
  {
    var t := Finish(db, j, status, summary, error, now);
    forall p | p in db.locks && db.locks[p].job != j ensures p in t.locks && t.locks[p] == db.locks[p] {
    }
  }

  // ---- Preparation jobs run in order ----

  /** While a preparation job runs, every older one of its product has ended: the scan of a cycle
      runs only after its diff. */
  lemma OlderPrepHasEnded(init: Db, trace: seq<Event>, k: nat, i: nat, j: nat)
    requires Run(init, trace) && k <= |trace| && i < j
    requires var db := StateAt(init, trace, k);
             && i in db.jobs && j in db.jobs && db.jobs[i].kind.Prep() && db.jobs[j].kind.Prep()
             && db.jobs[i].product == db.jobs[j].product && IsRunning(db, j)
    ensures StateAt(init, trace, k).jobs[i].status.Terminal()
  {
    ReachableInv(init, trace, k);
    var db := StateAt(init, trace, k);
    assert IsRunning(db, i) ==> KeyOf(db, i) == KeyOf(db, j);
  }

  predicate Unfinished(db: Db, j: nat) {
    j in db.jobs && db.jobs[j].kind.Prep() && !db.jobs[j].status.Terminal()
  }

  /** Unfinished preparation jobs of one product are one diff and the scan made with it. */
  ghost predicate OnePair(db: Db) {
    forall i, j :: Unfinished(db, i) && Unfinished(db, j) && db.jobs[i].product == db.jobs[j].product && i < j ==>
      db.jobs[i].kind == AutoDiff && db.jobs[j].kind == AutoScan && j == i + 1
  }

  /** Everything unfinished was unfinished before, as the same kind of job. */
  ghost predicate NoNewPrep(s: Db, t: Db) {
    forall j :: Unfinished(t, j) ==>
      Unfinished(s, j) && t.jobs[j].kind == s.jobs[j].kind && t.jobs[j].product == s.jobs[j].product
  }

  lemma NoNewPrepKeepsPairs(s: Db, t: Db)
    requires OnePair(s) && NoNewPrep(s, t)
    ensures OnePair(t)
  {
  }

  /** A diff and the scan made with it, for a product with nothing unfinished. */
  lemma PairAdded(db: Db, t: Db, p: nat, n: nat)
    requires OnePair(db) && n in t.jobs && n + 1 in t.jobs
    requires t.jobs[n].kind == AutoDiff && t.jobs[n + 1].kind == AutoScan
    requires t.jobs[n].product == p && t.jobs[n + 1].product == p
    requires forall j :: Unfinished(t, j) ==> j == n || j == n + 1 || Unfinished(db, j)
    requires forall j :: Unfinished(db, j) ==> j in t.jobs && t.jobs[j] == db.jobs[j] && db.jobs[j].product != p
    ensures OnePair(t)
  {
  }

  lemma CycleKeepsPairs(db: Db, p: nat, now: Time)
    requires Inv(db) && OnePair(db) && p in db.products
    ensures OnePair(Cycle(db, p, now))
  {
    hide Exclusive;
    hide Held;
    hide LocksOwned;
    hide WorkersOwned;
    hide InOrder;
    hide RowOk;
    hide OnePair;
    if !UnfinishedPrep(db, p) {
      assert db.nextJob !in db.jobs && db.nextJob + 1 !in db.jobs;
      PairAdded(db, Cycle(db, p, now), p, db.nextJob);
    }
  }

  lemma {:induction false} CyclesKeepPairs(db: Db, now: Time, order: seq<nat>)
    requires Inv(db) && OnePair(db) && forall p :: p in order ==> p in db.products
    ensures OnePair(Cycles(db, now, order))
    decreases |order|
  {
    hide Inv;
    hide OnePair;
    if order != [] {
      var front := order[..|order| - 1];
      CyclesKeepPairs(db, now, front);
      CyclesKeep(db, now, front);
      CycleKeepsPairs(Cycles(db, now, front), order[|order| - 1], now);
    }
  }

  lemma {:induction false} ClaimsAreGenut(db: Db, asg: seq<Assignment>, j: nat)
    requires Claims(db, asg) && TakesJob(asg, j)
    ensures j in db.jobs && db.jobs[j].kind == Genut
  {
    hide Before;
    hide BusyKeys;
    var k :| 0 <= k < |asg| && asg[k].job == j;
    assert Champion(db, asg[k].job);
  }

  lemma {:induction false} AssignAddsNoPrep(db: Db, now: Time, asg: seq<Assignment>)
    requires Claims(db, asg) && Assignable(db, asg)
    ensures NoNewPrep(db, Assign(db, now, asg))
  {
    var t := Assign(db, now, asg);
    AssignFrame(db, now, asg);
    hide Assign;
    hide Claims;
    hide TakesJob;
    hide TakesProduct;
    forall j | Unfinished(t, j)
      ensures Unfinished(db, j) && t.jobs[j].kind == db.jobs[j].kind && t.jobs[j].product == db.jobs[j].product
    {
      KindsStay(db, now, asg, j);
      if TakesJob(asg, j) {
        ClaimsAreGenut(db, asg, j);
      }
    }
  }

  /** A rerun leaves one pair: it is of a GENUT job, or nothing of its product is unfinished, or it
      is of a scan and the last job made is the only one unfinished, a diff. */
  predicate RerunIsSafe(db: Db, j: nat) {
    HasKey(db, j) && db.jobs[j].kind.Prep() ==>
      forall i :: i in db.jobs && Unfinished(db, i) && db.jobs[i].product == db.jobs[j].product ==>
        db.jobs[i].kind == AutoDiff && db.jobs[j].kind == AutoScan && db.nextJob == i + 1
  }

  lemma NextIsNew(db: Db)
    requires Rows(db)
    ensures db.nextJob !in db.jobs
  {
  }

  /** One more unfinished preparation job, made last, leaves one pair if it completes one. */
  lemma RerunAddsPrep(db: Db, t: Db, n: nat, job: Job)
    requires Rows(db) && OnePair(db) && n == db.nextJob && t.jobs == db.jobs[n := job]
    requires job.kind.Prep() && job.status == Queued
    ensures OnePair(t) <==>
            forall i :: i in db.jobs && Unfinished(db, i) && db.jobs[i].product == job.product ==>
                db.jobs[i].kind == AutoDiff && job.kind == AutoScan && n == i + 1
  {
    hide RowOk;
    assert n !in db.jobs && Unfinished(t, n);
    assert forall i: nat :: i != n ==> (Unfinished(t, i) <==> Unfinished(db, i));
    assert forall i: nat :: i in db.jobs ==> t.jobs[i] == db.jobs[i] && i < n;
  }

  /** Reruns are not guarded by the program. They keep to one pair exactly when they are safe. */
  lemma RerunKeepsPairsExactly(db: Db, j: nat, now: Time)
    requires Inv(db) && OnePair(db)
    ensures OnePair(Rerun(db, j, now)) <==> RerunIsSafe(db, j)
  {
    hide Exclusive;
    hide Held;
    hide LocksOwned;
    hide WorkersOwned;
    hide InOrder;
    hide Rows;
    hide OnePair;
    var t := Rerun(db, j, now);
    if HasKey(db, j) {
      if db.jobs[j].kind.Prep() {
        RerunAddsPrep(db, t, db.nextJob, t.jobs[db.nextJob]);
      } else {
        assert db.nextJob !in db.jobs by { NextIsNew(db); }
        NoNewPrepKeepsPairs(db, t);
      }
    }
  }

  lemma StepKeepsPairs(s: Db, now: Time, a: Action, t: Db)
    requires Inv(s) && OnePair(s) && Step(s, now, a, t)
    ensures OnePair(t) <==> (a.Rerunning? ==> RerunIsSafe(s, a.job))
  {
    hide OnePair;
    hide RerunIsSafe;
    if a.Rerunning? {
      RerunKeepsPairsExactly(s, a.job, now);
    } else if a.Cycling? {
      CycleKeepsPairs(s, a.product, now);
    } else if a.CyclingDue? {
      CyclesKeepPairs(s, now, a.order);
    } else {
      StepAddsNoPrep(s, now, a, t);
      NoNewPrepKeepsPairs(s, t);
    }
  }

  lemma OtherStepAddsNoPrep(s: Db, now: Time, a: Action, t: Db)
    requires Step(s, now, a, t) && !a.Cycling? && !a.CyclingDue? && !a.Rerunning? && !a.Claiming? && !LeavesJobs(a)
    ensures NoNewPrep(s, t)
  {
    hide PrepChampion;
    hide RenameIsSafe;
    hide Claims;
    hide LockHeldBy;
    hide WorkerHeldBy;
    ChampionsAreUnfinished(s);
  }

  lemma StepAddsNoPrep(s: Db, now: Time, a: Action, t: Db)
    requires Step(s, now, a, t) && !a.Cycling? && !a.CyclingDue? && !a.Rerunning?
    ensures NoNewPrep(s, t)
  {
    hide NoNewPrep;
    if a.Claiming? {
      AssignAddsNoPrep(s, now, a.assignments);
    } else if LeavesJobs(a) {
      JobsAreLeft(s, now, a, t);
      NothingAdded(s, t);
    } else {
      OtherStepAddsNoPrep(s, now, a, t);
    }
  }

  lemma NothingAdded(s: Db, t: Db)
    requires t.jobs == s.jobs
    ensures NoNewPrep(s, t)
  {
  }

  lemma ChampionsAreUnfinished(db: Db)
    ensures forall j :: PrepChampion(db, j) ==> Unfinished(db, j)
  {
  }

  /** The k-th event is no rerun, or a safe one. */
  predicate RerunsSafely(init: Db, trace: seq<Event>, k: nat)
    requires k < |trace|
  {
    trace[k].action.Rerunning? ==> RerunIsSafe(StateAt(init, trace, k), trace[k].action.job)
  }

  lemma FreshHasOnePair(db: Db)
    requires Fresh(db)
    ensures OnePair(db)
  {
  }

  lemma EventKeepsPairs(init: Db, trace: seq<Event>, k: nat)
    requires Run(init, trace) && k < |trace|
    requires Inv(StateAt(init, trace, k)) && OnePair(StateAt(init, trace, k))
    ensures OnePair(StateAt(init, trace, k + 1)) <==> RerunsSafely(init, trace, k)
  {
    TraceStep(init, trace, k);
    hide Run;
    hide Step;
    hide Inv;
    hide OnePair;
    hide RerunIsSafe;
    StepKeepsPairs(StateAt(init, trace, k), trace[k].now, trace[k].action, StateAt(init, trace, k + 1));
  }

  /** A product has at most one unfinished pair all through a run, exactly when all reruns are safe. */
  lemma {:induction false} AtMostOnePair(init: Db, trace: seq<Event>, n: nat)
    requires Run(init, trace) && n <= |trace|
    ensures (forall k :: 0 <= k <= n ==> OnePair(StateAt(init, trace, k))) <==>
            (forall k :: 0 <= k < n ==> RerunsSafely(init, trace, k))
    decreases n
  {
    hide Run;
    hide RerunsSafely;
    hide Inv;
    hide OnePair;
    if n == 0 {
      RunStartsFresh(init, trace);
      FreshHasOnePair(init);
    } else {
      AtMostOnePair(init, trace, n - 1);
      ReachableInv(init, trace, n - 1);
      if OnePair(StateAt(init, trace, n - 1)) {
        EventKeepsPairs(init, trace, n - 1);
      }
    }
  }
}

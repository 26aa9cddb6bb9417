/** Locks and busy workers correspond one to one to the running GENUT jobs, except during a restart. */
module Holdings {
  import opened Database
  import opened Engine
  import opened AutoTick
  import opened Janitor
  import opened Services
  import opened Invariant
  import opened Runs

  /** No lock belongs to a job that has ended. */
  ghost predicate LocksLive(db: Db) {
    forall p :: p in db.locks ==> !Gone(db, db.locks[p].job)
  }

  /** No worker is busy with a job that has ended. */
  ghost predicate WorkersLive(db: Db) {
    forall w :: w in db.workers && db.workers[w].status == Busy ==>
      db.workers[w].current.Some? && !Gone(db, db.workers[w].current.value)
  }

  ghost predicate Live(db: Db) {
    LocksLive(db) && WorkersLive(db)
  }

  lemma {:induction false} AssignLive(db: Db, now: Time, asg: seq<Assignment>)
    requires Live(db) && Assignable(db, asg)
    ensures Live(Assign(db, now, asg))
    decreases |asg|
  {
    if asg != [] {
      AssignLive(db, now, asg[..|asg| - 1]);
    }
  }

  /** More jobs, with the old rows as they were, end nothing. */
  lemma MoreJobsLive(s: Db, t: Db)
    requires Live(s) && t.locks == s.locks && t.workers == s.workers
    requires forall j :: j in s.jobs ==> j in t.jobs && t.jobs[j] == s.jobs[j]
    ensures Live(t)
  {
  }

  lemma CycleAddsJobs(db: Db, p: nat, now: Time)
    requires Rows(db) && p in db.products
    ensures forall j :: j in db.jobs ==> j in Cycle(db, p, now).jobs && Cycle(db, p, now).jobs[j] == db.jobs[j]
  {
    hide RowOk;
    hide UnfinishedPrep;
  }

  lemma {:induction false} CyclesAddJobs(db: Db, now: Time, order: seq<nat>)
    requires Inv(db) && forall p :: p in order ==> p in db.products
    ensures forall j :: j in db.jobs ==>
              j in Cycles(db, now, order).jobs && Cycles(db, now, order).jobs[j] == db.jobs[j]
    decreases |order|
  {
    hide Inv;
    hide Cycle;
    hide Rows;
    if order != [] {
      var front := order[..|order| - 1];
      CyclesAddJobs(db, now, front);
      CyclesKeep(db, now, front);
      InvRows(Cycles(db, now, front));
      CycleAddsJobs(Cycles(db, now, front), order[|order| - 1], now);
    }
  }

  lemma InvRows(db: Db)
    requires Inv(db)
    ensures Rows(db)
  {
  }

  lemma FinishLive(db: Db, j: nat, status: Status, summary: Option<string>, error: Option<string>, now: Time)
    requires Inv(db) && Live(db)
    ensures Live(Finish(db, j, status, summary, error, now))
  {
    hide Exclusive;
    hide InOrder;
    hide RowOk;
    assert RunningGenut(db, j) ==> Holds(db, j);
    hide Held;
  }

  lemma ReapedLive(db: Db, now: Time, gone: set<nat>)
    requires Inv(db) && Live(db)
    ensures Live(Reaped(db, now, gone))
  {
    hide Exclusive;
    hide InOrder;
    hide Held;
  }

  lemma ReleasedLive(db: Db)
    requires Inv(db)
    ensures Live(ReleaseStale(db))
  {
    hide Exclusive;
    hide InOrder;
    hide Held;
  }

  lemma SetWorkerLive(s: Db, now: Time, a: Action, t: Db)
    requires Live(s) && Step(s, now, a, t) && LeavesJobs(a) && !a.Releasing?
    ensures Live(t)
  {
    hide RenameIsSafe;
  }

  lemma AddingLive(s: Db, now: Time, a: Action, t: Db)
    requires Inv(s) && Live(s) && Step(s, now, a, t) && (a.Submitting? || a.Rerunning? || a.Cycling?)
    ensures Live(t)
  {
    hide Live;
    hide UnfinishedPrep;
    hide RowOk;
    assert s.nextJob !in s.jobs && s.nextJob + 1 !in s.jobs;
    hide Inv;
    MoreJobsLive(s, t);
  }

  /** What is held stays the same or is given back, and no running GENUT job stops. */
  ghost predicate Shrinks(s: Db, t: Db) {
    && (forall p :: p in t.locks ==> p in s.locks && t.locks[p] == s.locks[p])
    && (forall w :: w in t.workers ==> w in s.workers && t.workers[w] == s.workers[w])
    && (forall j :: RunningGenut(s, j) ==> RunningGenut(t, j))
  }

  lemma ShrinkingLive(s: Db, t: Db)
    requires LocksOwned(s) && WorkersOwned(s) && Live(s) && Shrinks(s, t)
    ensures Live(t)
  {
  }

  lemma OtherStepShrinks(s: Db, now: Time, a: Action, t: Db)
    requires Step(s, now, a, t) && !LeavesJobs(a) && !a.Submitting? && !a.Rerunning? && !a.Cycling?
    requires !a.Interrupting? && !a.Claiming? && !a.CyclingDue? && !a.Finishing? && !a.Reaping?
    ensures Shrinks(s, t)
  {
    hide PrepChampion;
    ChampionsAreUnfinished(s);
  }

  lemma OtherStepLive(s: Db, now: Time, a: Action, t: Db)
    requires Inv(s) && Live(s) && Step(s, now, a, t) && !LeavesJobs(a) && !a.Submitting? && !a.Rerunning? && !a.Cycling?
    requires !a.Interrupting? && !a.Claiming? && !a.CyclingDue? && !a.Finishing? && !a.Reaping?
    ensures Live(t)
  {
    hide Step;
    hide Rows;
    hide Held;
    hide LocksOwned;
    hide WorkersOwned;
    hide Exclusive;
    hide InOrder;
    hide Live;
    hide Shrinks;
    OtherStepShrinks(s, now, a, t);
    ShrinkingLive(s, t);
  }

  /** Nothing but a restart leaves a lock or a busy worker behind, and cleaning removes them. */
  lemma StepLive(s: Db, now: Time, a: Action, t: Db)
    requires Inv(s) && Step(s, now, a, t) && !a.Interrupting? && (Live(s) || a.Releasing?)
    ensures Live(t)
  {
    hide Inv;
    hide Live;
    hide StuckJobs;
    hide Reaped;
    hide Finish;
    hide Claims;
    hide PrepChampion;
    hide RenameIsSafe;
    match a
    case Claiming(asg) => AssignLive(s, now, asg);
    case CyclingDue(order) =>
      CyclesAddJobs(s, now, order);
      MoreJobsLive(s, t);
    case Finishing(j, status, summary, error) => FinishLive(s, j, status, summary, error, now);
    case Reaping(limit, alive) => ReapedLive(s, now, StuckJobs(s, now, limit, alive));
    case Releasing => ReleasedLive(s);
    case _ =>
      if LeavesJobs(a) {
        SetWorkerLive(s, now, a, t);
      } else if a.Submitting? || a.Rerunning? || a.Cycling? {
        AddingLive(s, now, a, t);
      } else {
        OtherStepLive(s, now, a, t);
      }
  }

  /** A restart cleans right after it has interrupted the jobs. */
  predicate RestartsClean(trace: seq<Event>) {
    forall k :: 0 <= k < |trace| - 1 && trace[k].action.Interrupting? ==> trace[k + 1].action.Releasing?
  }

  lemma {:induction false} RunIsLive(init: Db, trace: seq<Event>, k: nat)
    requires Run(init, trace) && RestartsClean(trace) && k <= |trace|
    requires k > 0 ==> !trace[k - 1].action.Interrupting?
    ensures Live(StateAt(init, trace, k))
  {
    hide Run;
    hide Step;
    hide Inv;
    if k == 0 {
      RunStartsFresh(init, trace);
    } else {
      hide Live;
      ReachableInv(init, trace, k - 1);
      TraceStep(init, trace, k - 1);
      if !(k > 1 && trace[k - 2].action.Interrupting?) {
        RunIsLive(init, trace, k - 1);
      }
      StepLive(StateAt(init, trace, k - 1), trace[k - 1].now, trace[k - 1].action, trace[k - 1].after);
    }
  }

  function RunningGenuts(db: Db): set<nat> {
    set j | j in db.jobs && RunningGenut(db, j)
  }

  function BusyWorkers(db: Db): set<nat> {
    set w | w in db.workers && db.workers[w].status == Busy
  }

  /** The job a busy worker is on. */
  function JobOf(db: Db, w: nat): nat {
    if w in db.workers && db.workers[w].current.Some? then db.workers[w].current.value else 0
  }

  function LockHolder(db: Db, p: nat): nat {
    if p in db.locks then db.locks[p].job else 0
  }

  /** `f` maps the set one to one onto the running GENUT jobs. */
  ghost predicate OneToOne(s: set<nat>, f: nat -> nat, db: Db) {
    && (forall x :: x in s ==> f(x) in RunningGenuts(db))
    && (forall x, y :: x in s && y in s && f(x) == f(y) ==> x == y)
    && (forall j :: j in RunningGenuts(db) ==> exists x :: x in s && f(x) == j)
  }

  /** Outside a restart, busy workers, locks and running GENUT jobs correspond one to one, through the
      worker's current job and the job of the lock. */
  lemma HoldingsAreOneToOne(init: Db, trace: seq<Event>, k: nat)
    requires Run(init, trace) && RestartsClean(trace) && k <= |trace|
    requires k > 0 ==> !trace[k - 1].action.Interrupting?
    ensures var db := StateAt(init, trace, k);
            && OneToOne(BusyWorkers(db), w => JobOf(db, w), db)
            && OneToOne(db.locks.Keys, p => LockHolder(db, p), db)
            && |BusyWorkers(db)| == |db.locks| == |RunningGenuts(db)|
  {
    RunIsLive(init, trace, k);
    ReachableInv(init, trace, k);
    hide Run;
    var db := StateAt(init, trace, k);
    WorkersOneToOne(db);
    LocksOneToOne(db);
    hide *;
    SameSize(BusyWorkers(db), w => JobOf(db, w), db);
    SameSize(db.locks.Keys, p => LockHolder(db, p), db);
  }

  lemma WorkersOneToOne(db: Db)
    requires Inv(db) && Live(db)
    ensures OneToOne(BusyWorkers(db), w => JobOf(db, w), db)
  {
    hide Rows;
    hide Exclusive;
    hide InOrder;
    hide LocksOwned;
    forall j | j in RunningGenuts(db) ensures exists w :: w in BusyWorkers(db) && JobOf(db, w) == j {
      assert Holds(db, j) && db.jobs[j].worker.value in BusyWorkers(db);
    }
  }

  lemma LocksOneToOne(db: Db)
    requires Inv(db) && Live(db)
    ensures OneToOne(db.locks.Keys, p => LockHolder(db, p), db)
  {
    hide Rows;
    hide Exclusive;
    hide InOrder;
    hide WorkersOwned;
    forall j | j in RunningGenuts(db) ensures exists p :: p in db.locks.Keys && LockHolder(db, p) == j {
      assert Holds(db, j) && db.jobs[j].product in db.locks.Keys;
    }
  }

  lemma SameSize(s: set<nat>, f: nat -> nat, db: Db)
    requires OneToOne(s, f, db)
    ensures |s| == |RunningGenuts(db)|
  {
    var image := set x | x in s :: f(x);
    assert image == RunningGenuts(db);
    ImageSize(s, f);
  }

  lemma {:induction false} ImageSize(s: set<nat>, f: nat -> nat)
    requires forall x, y :: x in s && y in s && f(x) == f(y) ==> x == y
    ensures |set x | x in s :: f(x)| == |s|
    decreases |s|
  {
    if s != {} {
      var x :| x in s;
      ImageSize(s - {x}, f);
      assert (set y | y in s :: f(y)) == (set y | y in s - {x} :: f(y)) + {f(x)};
    }
  }
}

/** The life of a job over whole runs, and that no queued job waits for ever. */
module Progress {
  import opened Database
  import opened Engine
  import opened AutoTick
  import opened Janitor
  import opened Services
  import opened Invariant
  import opened Runs
  import opened Watchdog

  // ---- What a step does to one row ----

  /** What was asked for does not change. */
  predicate SameRequest(a: Job, b: Job) {
    && a.product == b.product && a.kind == b.kind && a.origin == b.origin && a.function_ == b.function_
    && a.files == b.files && a.priority == b.priority && a.submittedAt == b.submittedAt
  }

  /** A row is that of the same request, or a new one under a new id at the end of the queue. Nothing
      goes back to the queue, and only what was queued is started. */
  predicate Ages(s: Db, now: Time, t: Db, j: nat) {
    j in t.jobs ==>
      if j in s.jobs then
        && SameRequest(s.jobs[j], t.jobs[j])
        && (t.jobs[j].status == Queued ==> s.jobs[j].status == Queued)
        && (t.jobs[j].status == Running ==> s.jobs[j].status == Running || s.jobs[j].status == Queued)
      else
        s.nextJob <= j && t.jobs[j].status == Queued && t.jobs[j].priority == 0 && t.jobs[j].submittedAt == now
  }

  lemma {:induction false} AssignAges(db: Db, now: Time, asg: seq<Assignment>, j: nat)
    requires Assignable(db, asg) && forall k :: 0 <= k < |asg| ==> db.jobs[asg[k].job].status == Queued
    ensures Ages(db, now, Assign(db, now, asg), j)
    decreases |asg|
  {
    if asg != [] {
      AssignAges(db, now, asg[..|asg| - 1], j);
    }
  }

  lemma {:induction false} CyclesAge(db: Db, now: Time, order: seq<nat>, j: nat)
    requires Rows(db) && forall p :: p in order ==> p in db.products
    ensures Ages(db, now, Cycles(db, now, order), j)
    decreases |order|
  {
    if order != [] {
      CyclesAge(db, now, order[..|order| - 1], j);
    }
  }

  lemma ClaimedAreQueued(db: Db, asg: seq<Assignment>)
    requires Claims(db, asg)
    ensures forall k :: 0 <= k < |asg| ==> asg[k].job in db.jobs && db.jobs[asg[k].job].status == Queued
  {
    forall k | 0 <= k < |asg| ensures asg[k].job in db.jobs && db.jobs[asg[k].job].status == Queued {
      ClaimedWereWaiting(db, asg, k);
    }
  }

  predicate InsertsJobs(a: Action) {
    a.Submitting? || a.Rerunning? || a.Cycling?
  }

  lemma InsertAges(s: Db, now: Time, a: Action, t: Db, j: nat)
    requires Rows(s) && Step(s, now, a, t) && InsertsJobs(a)
    ensures Ages(s, now, t, j)
  {
    hide RenameIsSafe;
    hide RowOk;
    hide LockHeldBy;
    hide WorkerHeldBy;
    hide UnfinishedPrep;
    hide BusyKeys;
    hide StaleWorker;
    hide OrElse;
    hide ReleasedLocks;
  }

  lemma OtherStepAges(s: Db, now: Time, a: Action, t: Db, j: nat)
    requires Rows(s) && Step(s, now, a, t) && !a.Claiming? && !a.CyclingDue? && !LeavesJobs(a) && !InsertsJobs(a)
    ensures Ages(s, now, t, j)
  {
    hide RenameIsSafe;
    hide RowOk;
    hide LockHeldBy;
    hide WorkerHeldBy;
    hide UnfinishedPrep;
    hide BusyKeys;
    hide StaleWorker;
    hide OrElse;
    hide ReleasedLocks;
  }

  lemma StepAges(s: Db, now: Time, a: Action, t: Db, j: nat)
    requires Inv(s) && Step(s, now, a, t)
    ensures Ages(s, now, t, j)
  {
    if a.Claiming? {
      ClaimedAreQueued(s, a.assignments);
      AssignAges(s, now, a.assignments, j);
    } else if a.CyclingDue? {
      CyclesAge(s, now, a.order, j);
    } else if LeavesJobs(a) {
      JobsAreLeft(s, now, a, t);
    } else if InsertsJobs(a) {
      InsertAges(s, now, a, t, j);
    } else {
      OtherStepAges(s, now, a, t, j);
    }
  }

  /** The step is one that ends or takes the job, which waits in the queue. */
  ghost predicate Removes(s: Db, a: Action, j: nat)
    requires j in s.jobs
  {
    || (a.Claiming? && TakesJob(a.assignments, j))
    || (a.StartingPreps? && s.jobs[j].kind != Genut)
    || ((a.Finishing? || a.FinishingPrep?) && a.job == j)
    || (a.CancelingQueued? && a.product == s.jobs[j].product)
  }

  lemma {:induction false} CyclesKeepQueued(db: Db, now: Time, order: seq<nat>, j: nat)
    requires j in db.jobs && j < db.nextJob && forall p :: p in order ==> p in db.products
    ensures j in Cycles(db, now, order).jobs && Cycles(db, now, order).jobs[j] == db.jobs[j]
    decreases |order|
  {
    if order != [] {
      CyclesKeepQueued(db, now, order[..|order| - 1], j);
    }
  }

  lemma InsertKeepsQueued(s: Db, now: Time, a: Action, t: Db, j: nat)
    requires Rows(s) && Step(s, now, a, t) && InsertsJobs(a) && j in s.jobs
    ensures j in t.jobs && t.jobs[j] == s.jobs[j]
  {
    hide RenameIsSafe;
    hide RowOk;
    hide LockHeldBy;
    hide WorkerHeldBy;
    hide UnfinishedPrep;
    hide BusyKeys;
    hide StaleWorker;
    hide OrElse;
    hide ReleasedLocks;
  }

  lemma OtherStepKeepsQueued(s: Db, now: Time, a: Action, t: Db, j: nat)
    requires Rows(s) && Step(s, now, a, t) && !a.Claiming? && !a.CyclingDue? && !LeavesJobs(a) && !InsertsJobs(a)
    requires j in s.jobs && s.jobs[j].status == Queued && !Removes(s, a, j)
    ensures j in t.jobs && t.jobs[j] == s.jobs[j]
  {
    assert RowOk(s.jobs[j]) && s.jobs[j].worker.None?;
    hide RenameIsSafe;
    hide RowOk;
    hide LockHeldBy;
    hide WorkerHeldBy;
    hide UnfinishedPrep;
    hide BusyKeys;
    hide StaleWorker;
    hide OrElse;
    hide ReleasedLocks;
    hide TakesJob;
  }

  /** A queued job stays as it is unless it is started, canceled or finished; it is never deleted. */
  lemma QueuedStays(s: Db, now: Time, a: Action, t: Db, j: nat)
    requires Inv(s) && Step(s, now, a, t) && j in s.jobs && s.jobs[j].status == Queued && !Removes(s, a, j)
    ensures j in t.jobs && t.jobs[j] == s.jobs[j]
  {
    if a.Claiming? {
      AssignFrame(s, now, a.assignments);
    } else if a.CyclingDue? {
      CyclesKeepQueued(s, now, a.order, j);
    } else if LeavesJobs(a) {
      JobsAreLeft(s, now, a, t);
    } else if InsertsJobs(a) {
      InsertKeepsQueued(s, now, a, t, j);
    } else {
      OtherStepKeepsQueued(s, now, a, t, j);
    }
  }

  // ---- Nobody starves ----

  /** Job `i` waits, and is to be served before `j`. */
  predicate InFront(db: Db, i: nat, j: nat)
    requires j in db.jobs
  {
    && i in db.jobs && db.jobs[i].status == Queued && db.jobs[i].kind == Genut
    && var a, b := db.jobs[i], db.jobs[j];
       || b.priority < a.priority
       || (b.priority == a.priority && a.submittedAt < b.submittedAt)
       || (b.priority == a.priority && a.submittedAt == b.submittedAt && i < j)
  }

  function Queue(db: Db, j: nat): set<nat>
    requires j in db.jobs
  {
    set i | i in db.jobs && InFront(db, i, j)
  }

  /** The claim finds the key of the job free, and an enabled worker idle. */
  ghost predicate FindsItFree(db: Db, j: nat)
    requires HasKey(db, j)
  {
    !KeyInUse(db, KeyOf(db, j)) && exists w :: w in db.workers && db.workers[w].enabled && db.workers[w].status == Idle
  }

  /** A claim that could take the job, and does not, takes one in front of it. */
  lemma ClaimShortens(db: Db, asg: seq<Assignment>, j: nat) returns (k: nat)
    requires Claims(db, asg) && Waits(db, j) && FindsItFree(db, j) && !TakesJob(asg, j)
    ensures k < |asg| && InFront(db, asg[k].job, j)
  {
    forall n | 0 <= n < |asg| ensures asg[n].job != j && Waits(db, asg[n].job) {
      ClaimedWereWaiting(db, asg, n);
    }
    var w :| w in db.workers && db.workers[w].enabled && db.workers[w].status == Idle;
    if n :| 0 <= n < |asg| && HasKey(db, asg[n].job) && KeyOf(db, asg[n].job) == KeyOf(db, j) {
      if !InFront(db, asg[n].job, j) {
        NotOvertaken(db, asg, j, n);
        k :| 0 <= k < |asg| && InFront(db, asg[k].job, j);
      } else {
        k := n;
      }
    } else {
      if forall n :: 0 <= n < |asg| ==> asg[n].worker != w {
        ClaimConservesWork(db, asg, j, w);
      }
      var n :| 0 <= n < |asg| && asg[n].worker == w;
      if !InFront(db, asg[n].job, j) {
        NotOvertaken(db, asg, j, n);
        k :| 0 <= k < |asg| && InFront(db, asg[k].job, j);
      } else {
        k := n;
      }
    }
  }

  lemma NotOvertaken(db: Db, asg: seq<Assignment>, j: nat, n: nat)
    requires Claims(db, asg) && Waits(db, j) && !KeyInUse(db, KeyOf(db, j)) && !TakesJob(asg, j)
    requires n < |asg| && asg[n].job != j && !InFront(db, asg[n].job, j)
    requires forall k :: 0 <= k < |asg| ==> asg[k].job != j && Waits(db, asg[k].job)
    ensures exists k :: 0 <= k < |asg| && InFront(db, asg[k].job, j)
  {
    hide KeyInUse;
    hide Claims;
    FirstComeFirstServed(db, asg, j, n);
    var k :| 0 <= k < |asg| && HasKey(db, asg[k].job) && KeyOf(db, asg[k].job) == KeyOf(db, j)
             && var a, c := db.jobs[j], db.jobs[asg[k].job];
                && a.priority <= c.priority
                && (a.priority == c.priority ==> c.submittedAt <= a.submittedAt)
                && (a.priority == c.priority && c.submittedAt == a.submittedAt ==> asg[k].job < j);
    assert InFront(db, asg[k].job, j);
  }

  /** Whatever happens, nothing gets in front of a queued job that did not wait there before. */
  lemma QueueShrinks(s: Db, now: Time, a: Action, t: Db, j: nat)
    requires Inv(s) && Step(s, now, a, t) && j in s.jobs && j in t.jobs && t.jobs[j] == s.jobs[j]
    requires j < s.nextJob && s.jobs[j].submittedAt <= now && s.jobs[j].priority == 0
    ensures Queue(t, j) <= Queue(s, j)
  {
    forall i | i in Queue(t, j) ensures i in Queue(s, j) {
      StepAges(s, now, a, t, i);
    }
  }

  lemma {:induction false} TakenIsRunning(db: Db, now: Time, asg: seq<Assignment>, k: nat)
    requires Assignable(db, asg) && k < |asg|
    ensures asg[k].job in Assign(db, now, asg).jobs && Assign(db, now, asg).jobs[asg[k].job].status == Running
    decreases |asg|
  {
    if k < |asg| - 1 {
      TakenIsRunning(db, now, asg[..|asg| - 1], k);
    }
  }

  lemma ClaimServes(s: Db, now: Time, asg: seq<Assignment>, t: Db, j: nat)
    requires Inv(s) && Step(s, now, Claiming(asg), t) && Waits(s, j) && FindsItFree(s, j) && !TakesJob(asg, j)
    requires j < s.nextJob && s.jobs[j].submittedAt <= now && s.jobs[j].priority == 0
    ensures j in t.jobs && t.jobs[j] == s.jobs[j] && |Queue(t, j)| < |Queue(s, j)|
  {
    hide Inv;
    hide Claims;
    hide KeyInUse;
    QueuedStays(s, now, Claiming(asg), t, j);
    QueueShrinks(s, now, Claiming(asg), t, j);
    var k := ClaimShortens(s, asg, j);
    TakenIsRunning(s, now, asg, k);
    assert asg[k].job in Queue(s, j) && asg[k].job !in Queue(t, j);
    SubsetSize(Queue(t, j), Queue(s, j) - {asg[k].job});
  }

  lemma IdsInOrder(db: Db)
    requires Inv(db)
    ensures IdsFresh(db)
  {
  }

  lemma NothingBefore(init: Db, trace: seq<Event>)
    requires Run(init, trace)
    ensures StateAt(init, trace, 0).jobs == map[]
  {
    hide Step;
  }

  /** In a run, jobs have the priority they were made with, and were submitted before now. */
  lemma {:induction false} SubmittedBefore(init: Db, trace: seq<Event>, n: nat, j: nat)
    requires Run(init, trace) && Timed(trace) && n <= |trace| && j in StateAt(init, trace, n).jobs
    ensures n > 0 && j < StateAt(init, trace, n).nextJob
    ensures StateAt(init, trace, n).jobs[j].priority == 0
    ensures StateAt(init, trace, n).jobs[j].submittedAt <= trace[n - 1].now
    decreases n
  {
    NothingBefore(init, trace);
    hide Run;
    hide Step;
    hide Inv;
    ReachableInv(init, trace, n);
    IdsInOrder(StateAt(init, trace, n));
    if n > 0 {
      TraceStep(init, trace, n - 1);
      ReachableInv(init, trace, n - 1);
      StepAges(StateAt(init, trace, n - 1), trace[n - 1].now, trace[n - 1].action, StateAt(init, trace, n), j);
      if j in StateAt(init, trace, n - 1).jobs {
        SubmittedBefore(init, trace, n - 1, j);
      }
    }
  }

  function ClaimsIn(trace: seq<Event>, n: nat, m: nat): nat
    requires n <= m <= |trace|
  {
    if n == m then 0 else ClaimsIn(trace, n, m - 1) + (if trace[m - 1].action.Claiming? then 1 else 0)
  }

  ghost predicate TakenIn(trace: seq<Event>, n: nat, m: nat, j: nat)
    requires n <= m <= |trace|
  {
    exists k :: n <= k < m && trace[k].action.Claiming? && TakesJob(trace[k].action.assignments, j)
  }

  /** Nobody cancels or finishes the waiting job, and a claim finds its key free and a worker idle. */
  ghost predicate Undisturbed(init: Db, trace: seq<Event>, k: nat, j: nat)
    requires k < |trace|
  {
    var s, a := StateAt(init, trace, k), trace[k].action;
    Waits(s, j) ==>
      && !(a.Finishing? && a.job == j) && !(a.CancelingQueued? && a.product == s.jobs[j].product)
      && (a.Claiming? ==> FindsItFree(s, j))
  }

  lemma EventServes(init: Db, trace: seq<Event>, k: nat, j: nat)
    requires Run(init, trace) && Timed(trace) && k < |trace| && Waits(StateAt(init, trace, k), j)
    requires Undisturbed(init, trace, k, j)
    ensures var s, a, t := StateAt(init, trace, k), trace[k].action, StateAt(init, trace, k + 1);
            || (a.Claiming? && TakesJob(a.assignments, j))
            || (Waits(t, j) && |Queue(t, j)| + (if a.Claiming? then 1 else 0) <= |Queue(s, j)|)
  {
    var s, a, t := StateAt(init, trace, k), trace[k].action, StateAt(init, trace, k + 1);
    TraceStep(init, trace, k);
    ReachableInv(init, trace, k);
    ReachableInv(init, trace, k + 1);
    SubmittedBefore(init, trace, k, j);
    hide Run;
    hide FindsItFree;
    if a.Claiming? {
      if !TakesJob(a.assignments, j) {
        ClaimServes(s, trace[k].now, a.assignments, t, j);
        hide Step;
      }
    } else {
      FinishesNoOther(s, trace[k].now, a, t, j);
      QueuedStays(s, trace[k].now, a, t, j);
      QueueShrinks(s, trace[k].now, a, t, j);
      hide Step;
      SubsetSize(Queue(t, j), Queue(s, j));
    }
  }

  lemma FinishesNoOther(s: Db, now: Time, a: Action, t: Db, j: nat)
    requires Step(s, now, a, t) && Waits(s, j) && !a.Claiming?
    requires !(a.Finishing? && a.job == j) && !(a.CancelingQueued? && a.product == s.jobs[j].product)
    ensures !Removes(s, a, j)
  {
  }

  lemma {:induction false} ServedOrCloser(init: Db, trace: seq<Event>, n: nat, m: nat, j: nat)
    requires Run(init, trace) && Timed(trace) && n <= m <= |trace| && Waits(StateAt(init, trace, n), j)
    requires forall k :: n <= k < m ==> Undisturbed(init, trace, k, j)
    ensures || TakenIn(trace, n, m, j)
            || (Waits(StateAt(init, trace, m), j)
                && ClaimsIn(trace, n, m) + |Queue(StateAt(init, trace, m), j)| <= |Queue(StateAt(init, trace, n), j)|)
    decreases m
  {
    hide Run;
    hide Timed;
    hide Undisturbed;
    hide Queue;
    hide TakesJob;
    if m > n {
      ServedOrCloser(init, trace, n, m - 1, j);
      if TakenIn(trace, n, m - 1, j) {
        assert TakenIn(trace, n, m, j);
      } else {
        EventServes(init, trace, m - 1, j);
      }
    }
  }

  /**
  No queued job starves: whatever else is submitted or done meanwhile, it has been assigned after more
  claims than jobs waited in front of it, if no one cancels it and the claims find its key free.
  */
  lemma {:induction false} ServedInTurn(init: Db, trace: seq<Event>, n: nat, m: nat, j: nat)
    requires Run(init, trace) && Timed(trace) && n <= m <= |trace| && Waits(StateAt(init, trace, n), j)
    requires forall k :: n <= k < m ==> Undisturbed(init, trace, k, j)
    requires ClaimsIn(trace, n, m) > |Queue(StateAt(init, trace, n), j)|
    ensures TakenIn(trace, n, m, j)
  {
    ServedOrCloser(init, trace, n, m, j);
  }

  // ---- The life of a job ----

  /** Over any stretch of a run, a row stays that of the same request, and does not go back to the queue. */
  lemma {:induction false} RequestsStay(init: Db, trace: seq<Event>, n: nat, m: nat, j: nat)
    requires Run(init, trace) && n <= m <= |trace|
    requires j in StateAt(init, trace, n).jobs && j in StateAt(init, trace, m).jobs
    ensures SameRequest(StateAt(init, trace, n).jobs[j], StateAt(init, trace, m).jobs[j])
    ensures StateAt(init, trace, m).jobs[j].status == Queued ==> StateAt(init, trace, n).jobs[j].status == Queued
    decreases m
  {
    hide Step;
    hide Run;
    hide Inv;
    if m > n {
      TraceStep(init, trace, m - 1);
      ReachableInv(init, trace, m - 1);
      ReachableInv(init, trace, n);
      IdsInOrder(StateAt(init, trace, n));
      UsedIdsStayUsed(init, trace, n, m - 1);
      StepAges(StateAt(init, trace, m - 1), trace[m - 1].now, trace[m - 1].action, StateAt(init, trace, m), j);
      if j in StateAt(init, trace, m - 1).jobs {
        RequestsStay(init, trace, n, m - 1, j);
      }
    }
  }

  lemma {:induction false} UsedIdsStayUsed(init: Db, trace: seq<Event>, n: nat, m: nat)
    requires Run(init, trace) && n <= m <= |trace|
    ensures StateAt(init, trace, n).nextJob <= StateAt(init, trace, m).nextJob
    decreases m
  {
    hide Step;
    hide Run;
    hide Inv;
    if m > n {
      UsedIdsStayUsed(init, trace, n, m - 1);
      TraceStep(init, trace, m - 1);
      ReachableInv(init, trace, m - 1);
      hide StillEnded;
      StepEnds(StateAt(init, trace, m - 1), trace[m - 1].now, trace[m - 1].action, StateAt(init, trace, m), 0);
    }
  }
}

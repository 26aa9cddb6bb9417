/** How long a job may run and a lock may be held, over timed runs. */
module Watchdog {
  import opened Database
  import opened Engine
  import opened AutoTick
  import opened Janitor
  import opened Services
  import opened Invariant
  import opened Runs
  import opened Holdings

  /** Clocks do not go back. */
  predicate Timed(trace: seq<Event>) {
    forall i, k :: 0 <= i < k < |trace| ==> trace[i].now <= trace[k].now
  }

  /** `at` is a moment at which the tables are in the state after `k` events. */
  predicate Moment(trace: seq<Event>, k: nat, at: Time)
    requires k <= |trace|
  {
    && (k > 0 ==> trace[k - 1].now <= at)
    && (k < |trace| ==> at <= trace[k].now)
  }

  /** The watchdog, with the given limit, came by within the last `gap` seconds. */
  ghost predicate SweptWithin(trace: seq<Event>, k: nat, at: Time, limit: int, gap: int)
    requires k <= |trace|
  {
    exists r :: 0 <= r < k && trace[r].action.Reaping? && trace[r].action.limit == limit && at - trace[r].now <= gap
  }

  // ---- Jobs ----

  /** A running job has just been started, or it ran before with the same start. */
  predicate SameStart(s: Db, now: Time, t: Db, j: nat) {
    IsRunning(t, j) ==>
      || t.jobs[j].startedAt == Some(now)
      || (IsRunning(s, j) && s.jobs[j].startedAt == t.jobs[j].startedAt)
  }

  lemma {:induction false} AssignStarts(db: Db, now: Time, asg: seq<Assignment>, j: nat)
    requires Assignable(db, asg)
    ensures SameStart(db, now, Assign(db, now, asg), j)
    decreases |asg|
  {
    if asg != [] {
      AssignStarts(db, now, asg[..|asg| - 1], j);
    }
  }

  lemma {:induction false} CyclesStart(db: Db, now: Time, order: seq<nat>, j: nat)
    requires forall p :: p in order ==> p in db.products
    ensures SameStart(db, now, Cycles(db, now, order), j)
    decreases |order|
  {
    if order != [] {
      CyclesStart(db, now, order[..|order| - 1], j);
    }
  }

  lemma OtherStepStarts(s: Db, now: Time, a: Action, t: Db, j: nat)
    requires Step(s, now, a, t) && !a.Claiming? && !a.CyclingDue? && !LeavesJobs(a)
    ensures SameStart(s, now, t, j)
  {
    hide PrepChampion;
    hide RenameIsSafe;
    hide Claims;
    hide LockHeldBy;
    hide WorkerHeldBy;
    hide UnfinishedPrep;
  }

  lemma StepStarts(s: Db, now: Time, a: Action, t: Db, j: nat)
    requires Step(s, now, a, t)
    ensures SameStart(s, now, t, j)
  {
    if a.Claiming? {
      AssignStarts(s, now, a.assignments, j);
    } else if a.CyclingDue? {
      CyclesStart(s, now, a.order, j);
    } else if LeavesJobs(a) {
      JobsAreLeft(s, now, a, t);
    } else {
      OtherStepStarts(s, now, a, t, j);
    }
  }

  /** Going back in a run, a running job was started on the way or ran all along. */
  lemma {:induction false} RanSince(init: Db, trace: seq<Event>, r: nat, k: nat, j: nat)
    requires Run(init, trace) && Timed(trace) && r < k <= |trace| && IsRunning(StateAt(init, trace, k), j)
    ensures var job := StateAt(init, trace, k).jobs[j];
            || (job.startedAt.Some? && job.startedAt.value >= trace[r].now)
            || (IsRunning(StateAt(init, trace, r + 1), j)
                && StateAt(init, trace, r + 1).jobs[j].startedAt == job.startedAt)
    decreases k
  {
    hide Run;
    hide Step;
    if k > r + 1 {
      TraceStep(init, trace, k - 1);
      StepStarts(StateAt(init, trace, k - 1), trace[k - 1].now, trace[k - 1].action, StateAt(init, trace, k), j);
      if StateAt(init, trace, k).jobs[j].startedAt != Some(trace[k - 1].now) {
        RanSince(init, trace, r, k - 1, j);
      }
    }
  }

  /** What the watchdog leaves running has not run for too long. */
  lemma LeftRunning(db: Db, now: Time, limit: int, alive: set<nat>, j: nat)
    requires IsRunning(Reaped(db, now, StuckJobs(db, now, limit, alive)), j) && limit >= 0
    requires db.jobs[j].startedAt.Some?
    ensures now - db.jobs[j].startedAt.value <= 2 * limit
    ensures j !in alive ==> now - db.jobs[j].startedAt.value <= limit
  {
    hide LockHeldBy;
    hide WorkerHeldBy;
    assert j !in StuckJobs(db, now, limit, alive);
  }

  lemma AgeAfterReaping(init: Db, trace: seq<Event>, r: nat, j: nat)
    requires Run(init, trace) && r < |trace| && trace[r].action.Reaping? && trace[r].action.limit >= 0
    requires IsRunning(StateAt(init, trace, r + 1), j)
    ensures var job := StateAt(init, trace, r + 1).jobs[j];
            job.startedAt.Some? && trace[r].now - job.startedAt.value <= 2 * trace[r].action.limit
  {
    ReachableInv(init, trace, r);
    TraceStep(init, trace, r);
    hide Run;
    LeftRunning(StateAt(init, trace, r), trace[r].now, trace[r].action.limit, trace[r].action.alive, j);
  }

  /** If the watchdog comes by every `gap` seconds, no job has been running for longer than twice
      the limit plus `gap`. */
  lemma JobAgeBound(init: Db, trace: seq<Event>, k: nat, at: Time, limit: int, gap: int, j: nat)
    requires Run(init, trace) && Timed(trace) && k <= |trace| && Moment(trace, k, at) && limit >= 0
    requires SweptWithin(trace, k, at, limit, gap)
    requires j in StateAt(init, trace, k).jobs && StateAt(init, trace, k).jobs[j].status.Inflight()
    ensures StateAt(init, trace, k).jobs[j].startedAt.Some?
    ensures at - StateAt(init, trace, k).jobs[j].startedAt.value <= 2 * limit + gap
  {
    hide Run;
    ReachableInv(init, trace, k);
    assert IsRunning(StateAt(init, trace, k), j);
    var job := StateAt(init, trace, k).jobs[j];
    assert job.startedAt.Some?;
    hide Inv;
    var r :| 0 <= r < k && trace[r].action.Reaping? && trace[r].action.limit == limit && at - trace[r].now <= gap;
    RanSince(init, trace, r, k, j);
    if job.startedAt.value < trace[r].now {
      AgeAfterReaping(init, trace, r, j);
    }
  }

  /** The watchdog fails exactly the jobs that are over the limit without a process, or over twice
      the limit with one, and leaves the row of every other job alone. */
  lemma ReapsExactlyTheStuck(init: Db, trace: seq<Event>, k: nat, j: nat)
    requires Run(init, trace) && k < |trace| && trace[k].action.Reaping? && trace[k].action.limit >= 0
    requires j in StateAt(init, trace, k).jobs
    ensures var job := StateAt(init, trace, k).jobs[j];
            var limit, now, alive := trace[k].action.limit, trace[k].now, trace[k].action.alive;
            && j in trace[k].after.jobs
            && (trace[k].after.jobs[j] != job <==>
                  && IsRunning(StateAt(init, trace, k), j)
                  && job.startedAt.Some? && now - job.startedAt.value > (if j in alive then 2 * limit else limit))
            && (trace[k].after.jobs[j] != job ==> trace[k].after.jobs[j].status == Failed)
  {
    ReachableInv(init, trace, k);
    TraceStep(init, trace, k);
    hide Run;
    hide LockHeldBy;
    hide WorkerHeldBy;
  }

  // ---- Locks ----

  /** No lock is held for longer than twice the limit plus `gap`. */
  lemma LockAgeBound(init: Db, trace: seq<Event>, k: nat, at: Time, limit: int, gap: int, p: nat)
    requires Run(init, trace) && Timed(trace) && RestartsClean(trace)
    requires k <= |trace| && Moment(trace, k, at) && limit >= 0 && (k > 0 ==> !trace[k - 1].action.Interrupting?)
    requires SweptWithin(trace, k, at, limit, gap)
    requires p in StateAt(init, trace, k).locks
    ensures at - StateAt(init, trace, k).locks[p].acquiredAt <= 2 * limit + gap
  {
    var db := StateAt(init, trace, k);
    var j := db.locks[p].job;
    RunIsLive(init, trace, k);
    ReachableInv(init, trace, k);
    assert RunningGenut(db, j) && Holds(db, j);
    hide Run;
    JobAgeBound(init, trace, k, at, limit, gap, j);
  }
}
